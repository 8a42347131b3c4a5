/** PHP's string built-ins that the connector relies on, on `string` (one char per
    character). `trim`, `strtolower`, `strpos`, `explode`, `implode`, `str_replace`,
    integer-to-string conversion, the PCRE strips used by the gateways and
    `urlencode` (application/x-www-form-urlencoded over the UTF-8 bytes). */
module PhpStrings {

  // ---------------------------------------------------------------- trim

  /** The characters PHP's `trim` strips by default: space, tab, newline,
      carriage return, NUL and vertical tab. */
  const TrimChars: set<char> := {' ', '\t', '\n', '\r', '\0', '\U{B}'}

  function LTrim(s: string, cs: set<char>): (r: string)
    ensures |r| <= |s| && r == s[|s| - |r|..]
    ensures forall i :: 0 <= i < |s| - |r| ==> s[i] in cs
    ensures |r| > 0 ==> r[0] !in cs
    decreases |s|
  {
    if |s| > 0 && s[0] in cs then LTrim(s[1..], cs) else s
  }

  function RTrim(s: string, cs: set<char>): (r: string)
    ensures |r| <= |s| && r == s[..|r|]
    ensures forall i :: |r| <= i < |s| ==> s[i] in cs
    ensures |r| > 0 ==> r[|r| - 1] !in cs
    decreases |s|
  {
    if |s| > 0 && s[|s| - 1] in cs then RTrim(s[..|s| - 1], cs) else s
  }

  /** `trim($s, $chars)`: strips the characters of `cs` at both ends. */
  function TrimBy(s: string, cs: set<char>): string
  {
    RTrim(LTrim(s, cs), cs)
  }

  /** `trim($s)` with PHP's default character list. */
  function Trim(s: string): string
  {
    TrimBy(s, TrimChars)
  }

  /** A text that neither starts nor ends with a stripped character loses
      exactly one stripped character appended to it. */
  lemma TrimOneTrailing(s: string, c: char, cs: set<char>)
    requires |s| > 0 && s[0] !in cs && s[|s| - 1] !in cs && c in cs
    ensures TrimBy(s + [c], cs) == s
  {
    var t := s + [c];
    assert LTrim(t, cs) == t;
    assert t[..|t| - 1] == s;
    assert RTrim(t, cs) == RTrim(s, cs);
  }

  /** Trimming leaves a contiguous slice of the input that neither starts nor
      ends with a stripped character, and strips nothing else. */
  lemma TrimIsSlice(s: string, cs: set<char>)
    ensures var r := TrimBy(s, cs);
      && (|r| > 0 ==> r[0] !in cs && r[|r| - 1] !in cs)
      && exists a, b :: 0 <= a <= b <= |s| && r == s[a..b]
           && (forall i :: 0 <= i < a ==> s[i] in cs)
           && (forall i :: b <= i < |s| ==> s[i] in cs)
  {
    var l := LTrim(s, cs);
    var r := RTrim(l, cs);
    var a := |s| - |l|;
    var b := a + |r|;
    assert l == s[a..];
    assert r == l[..|r|];
    assert r == s[a..b];
    assert |r| > 0 ==> r[0] == l[0];
    assert forall i :: 0 <= i < a ==> s[i] in cs;
    assert forall i :: b <= i < |s| ==> s[i] in cs by {
      forall i | b <= i < |s| ensures s[i] in cs {
        assert s[i] == l[i - a];
      }
    }
  }

  // ---------------------------------------------------------------- case

  function LowerChar(c: char): char
  {
    if 'A' <= c <= 'Z' then (c as int + 32) as char else c
  }

  /** `strtolower` in the C locale: only ASCII letters change. */
  function Lower(s: string): (r: string)
    ensures |r| == |s|
    ensures forall i :: 0 <= i < |s| ==> r[i] == LowerChar(s[i])
  {
    seq(|s|, i requires 0 <= i < |s| => LowerChar(s[i]))
  }

  // ---------------------------------------------------------------- search

  ghost predicate OccursAt(s: string, pat: string, i: int)
  {
    0 <= i && i + |pat| <= |s| && s[i..i + |pat|] == pat
  }

  function IndexFrom(s: string, pat: string, from: nat): (r: int)
    requires from <= |s|
    ensures r == -1 || from <= r <= |s| - |pat|
    ensures r == -1 ==> forall j :: from <= j ==> !OccursAt(s, pat, j)
    ensures r >= 0 ==> OccursAt(s, pat, r) && forall j :: from <= j < r ==> !OccursAt(s, pat, j)
    decreases |s| - from
  {
    if from + |pat| > |s| then -1
    else if s[from..from + |pat|] == pat then from
    else IndexFrom(s, pat, from + 1)
  }

  /** `strpos($s, $pat)`: the leftmost occurrence, or -1 for FALSE. */
  function IndexOf(s: string, pat: string): (r: int)
    ensures r == -1 || 0 <= r <= |s| - |pat|
    ensures r == -1 ==> forall j :: !OccursAt(s, pat, j)
    ensures r >= 0 ==> OccursAt(s, pat, r) && forall j :: 0 <= j < r ==> !OccursAt(s, pat, j)
  {
    IndexFrom(s, pat, 0)
  }

  /** `strpos($s, $pat) !== FALSE` for a non-empty needle. */
  predicate Contains(s: string, pat: string)
  {
    IndexOf(s, pat) >= 0
  }

  predicate StartsWith(s: string, prefix: string)
  {
    |prefix| <= |s| && s[..|prefix|] == prefix
  }

  // ---------------------------------------------------------------- explode / implode

  /** `explode($sep, $s)` for a non-empty separator: the pieces between the
      leftmost non-overlapping occurrences of `sep`. */
  function Explode(sep: string, s: string): (r: seq<string>)
    requires |sep| > 0
    ensures |r| >= 1
    decreases |s|
  {
    var i := IndexOf(s, sep);
    if i < 0 then [s] else [s[..i]] + Explode(sep, s[i + |sep|..])
  }

  /** `implode($sep, $parts)`. */
  function Implode(sep: string, parts: seq<string>): string
  {
    if |parts| == 0 then ""
    else if |parts| == 1 then parts[0]
    else parts[0] + sep + Implode(sep, parts[1..])
  }

  /** Joining the pieces of `explode` with the same separator gives the input back. */
  lemma {:induction false} ImplodeExplode(sep: string, s: string)
    requires |sep| > 0
    ensures Implode(sep, Explode(sep, s)) == s
    decreases |s|
  {
    var i := IndexOf(s, sep);
    if i >= 0 {
      var rest := s[i + |sep|..];
      var tail := Explode(sep, rest);
      ImplodeExplode(sep, rest);
      var parts := [s[..i]] + tail;
      assert Explode(sep, s) == parts;
      assert parts[0] == s[..i] && parts[1..] == tail;
      assert Implode(sep, parts) == s[..i] + sep + Implode(sep, tail);
      assert s == s[..i] + sep + rest;
    }
  }

  /** No piece of `explode` contains the separator. */
  lemma {:induction false} ExplodePiecesAreSeparatorFree(sep: string, s: string)
    requires |sep| > 0
    ensures forall k :: 0 <= k < |Explode(sep, s)| ==> !Contains(Explode(sep, s)[k], sep)
    decreases |s|
  {
    var i := IndexOf(s, sep);
    if i >= 0 {
      var rest := s[i + |sep|..];
      ExplodePiecesAreSeparatorFree(sep, rest);
      var head := s[..i];
      if Contains(head, sep) {
        var j := IndexOf(head, sep);
        assert head[j..j + |sep|] == s[j..j + |sep|];
        assert OccursAt(s, sep, j);
        assert false;
      }
    }
  }

  /** Implode of a concatenation, when the second part is not empty. */
  lemma {:induction false} ImplodeAppend(sep: string, a: seq<string>, b: seq<string>)
    requires |a| > 0 && |b| > 0
    ensures Implode(sep, a + b) == Implode(sep, a) + sep + Implode(sep, b)
    decreases |a|
  {
    if |a| == 1 {
      assert (a + b)[1..] == b;
    } else {
      assert (a + b)[1..] == a[1..] + b;
      ImplodeAppend(sep, a[1..], b);
    }
  }

  function CountChar(c: char, s: string): nat
  {
    if |s| == 0 then 0 else (if s[0] == c then 1 else 0) + CountChar(c, s[1..])
  }

  lemma {:induction false} CountCharAppend(c: char, a: string, b: string)
    ensures CountChar(c, a + b) == CountChar(c, a) + CountChar(c, b)
    decreases |a|
  {
    if |a| > 0 {
      assert (a + b)[1..] == a[1..] + b;
      CountCharAppend(c, a[1..], b);
    } else {
      assert a + b == b;
    }
  }

  lemma CountCharAbsent(c: char, s: string)
    requires forall i :: 0 <= i < |s| ==> s[i] != c
    ensures CountChar(c, s) == 0
  {
    if |s| > 0 { CountCharAbsent(c, s[1..]); }
  }

  /** With a one-character separator, `explode` yields one more piece than
      there are separators. */
  lemma {:induction false} ExplodeCount(c: char, s: string)
    ensures |Explode([c], s)| == CountChar(c, s) + 1
    decreases |s|
  {
    var i := IndexOf(s, [c]);
    if i < 0 {
      assert forall j :: 0 <= j < |s| ==> s[j] != c by {
        forall j | 0 <= j < |s| ensures s[j] != c {
          assert s[j..j + 1] == [s[j]];
          assert !OccursAt(s, [c], j);
        }
      }
      CountCharAbsent(c, s);
    } else {
      var rest := s[i + 1..];
      ExplodeCount(c, rest);
      assert s == s[..i] + [c] + rest;
      forall j | 0 <= j < i ensures s[..i][j] != c {
        assert s[j..j + 1] == [s[j]];
        assert !OccursAt(s, [c], j);
      }
      CountCharAbsent(c, s[..i]);
      CountCharAppend(c, s[..i] + [c], rest);
      CountCharAppend(c, s[..i], [c]);
    }
  }

  /** The leftmost `c` of `a + [c] + b` is the leftmost `c` of `a`, or the one
      after `a` when `a` has none. */
  lemma IndexOfConcatChar(c: char, a: string, b: string)
    ensures var i := IndexOf(a, [c]);
      IndexOf(a + [c] + b, [c]) == if i < 0 then |a| else i
  {
    var s := a + [c] + b;
    var i := IndexOf(a, [c]);
    var bound := if i < 0 then |a| else i;
    assert OccursAt(s, [c], bound);
    forall j | 0 <= j < bound ensures !OccursAt(s, [c], j) {
      assert s[j..j + 1] == a[j..j + 1];
      assert !OccursAt(a, [c], j);
    }
  }

  /** A string without the separator character explodes to itself. */
  lemma ExplodeNoChar(c: char, s: string)
    requires forall i :: 0 <= i < |s| ==> s[i] != c
    ensures Explode([c], s) == [s]
  {
    forall j | 0 <= j < |s| ensures !OccursAt(s, [c], j) {
      assert s[j..j + 1] == [s[j]];
    }
  }

  /** One step of `explode` at a known occurrence. */
  lemma ExplodeStep(sep: string, s: string)
    requires |sep| > 0 && IndexOf(s, sep) >= 0
    ensures var i := IndexOf(s, sep);
      Explode(sep, s) == [s[..i]] + Explode(sep, s[i + |sep|..])
  {
  }

  /** The last piece of `explode` is a suffix of the input. */
  lemma ExplodeLastIsSuffix(sep: string, s: string)
    requires |sep| > 0
    ensures var pieces := Explode(sep, s);
      |pieces[|pieces| - 1]| <= |s| && pieces[|pieces| - 1] == s[|s| - |pieces[|pieces| - 1]|..]
  {
    ImplodeExplode(sep, s);
    ImplodedLast(sep, Explode(sep, s), s);
  }

  /** The last of parts that `implode` to `s` is a suffix of `s`. */
  lemma ImplodedLast(sep: string, parts: seq<string>, s: string)
    requires |parts| >= 1 && Implode(sep, parts) == s
    ensures |parts[|parts| - 1]| <= |s| && parts[|parts| - 1] == s[|s| - |parts[|parts| - 1]|..]
  {
    ImplodeEndsInLast(sep, parts);
  }

  /** `implode` ends in the last part. */
  lemma {:induction false} ImplodeEndsInLast(sep: string, parts: seq<string>)
    requires |parts| >= 1
    ensures var j := Implode(sep, parts); var last := parts[|parts| - 1];
      |last| <= |j| && j[|j| - |last|..] == last
  {
    if |parts| > 1 {
      ImplodeEndsInLast(sep, parts[1..]);
      var j := Implode(sep, parts[1..]);
      var last := parts[|parts| - 1];
      assert parts[1..][|parts| - 2] == last;
      var w := parts[0] + sep;
      assert Implode(sep, parts) == w + j;
      assert (w + j)[|w + j| - |last|..] == j[|j| - |last|..];
    } else {
      assert parts[0][0..] == parts[0];
    }
  }

  /** `a + c + b` with no `c` in `a` splits into `a` and the pieces of `b`. */
  lemma ExplodeConcatFirst(c: char, a: string, b: string)
    requires IndexOf(a, [c]) < 0
    ensures Explode([c], a + [c] + b) == [a] + Explode([c], b)
  {
    var s := a + [c] + b;
    IndexOfConcatChar(c, a, b);
    ExplodeStep([c], s);
    assert s[..|a|] == a && s[|a| + 1..] == b;
  }

  /** `a + c + b` with a `c` in `a` first splits off the piece of `a` before it. */
  lemma ExplodeConcatNext(c: char, a: string, b: string)
    requires IndexOf(a, [c]) >= 0
    ensures var i := IndexOf(a, [c]);
      && Explode([c], a + [c] + b) == [a[..i]] + Explode([c], a[i + 1..] + [c] + b)
      && Explode([c], a) == [a[..i]] + Explode([c], a[i + 1..])
  {
    var s := a + [c] + b;
    var i := IndexOf(a, [c]);
    IndexOfConcatChar(c, a, b);
    ExplodeStep([c], s);
    ExplodeStep([c], a);
    assert s[..i] == a[..i];
    assert s[i + 1..] == a[i + 1..] + [c] + b;
  }

  /** Exploding `a + c + b` on the single character `c` splits `a` and `b`
      separately, whatever `a` holds. */
  lemma {:induction false} ExplodeConcat(c: char, a: string, b: string)
    ensures Explode([c], a + [c] + b) == Explode([c], a) + Explode([c], b)
    decreases |a|
  {
    if IndexOf(a, [c]) < 0 {
      ExplodeConcatFirst(c, a, b);
    } else {
      var i := IndexOf(a, [c]);
      var rest := a[i + 1..];
      ExplodeConcatNext(c, a, b);
      ExplodeConcat(c, rest, b);
      PrefixedSplit([a[..i]], Explode([c], rest), Explode([c], b), Explode([c], a + [c] + b), Explode([c], a));
    }
  }

  /** A whole that is `head` followed by `x` and `y` is a part that is `head`
      followed by `x`, then `y`. */
  lemma PrefixedSplit(head: seq<string>, x: seq<string>, y: seq<string>, whole: seq<string>, part: seq<string>)
    requires whole == head + (x + y) && part == head + x
    ensures whole == part + y
  {
    assert head + (x + y) == (head + x) + y;
  }

  /** Pieces free of the separator character come back from joining and
      splitting. */
  lemma {:induction false} ExplodeImplode(c: char, parts: seq<string>)
    requires |parts| > 0
    requires forall i :: 0 <= i < |parts| ==> !Contains(parts[i], [c])
    ensures Explode([c], Implode([c], parts)) == parts
    decreases |parts|
  {
    if |parts| > 1 {
      var rest := parts[1..];
      ExplodeImplode(c, rest);
      assert Implode([c], parts) == parts[0] + [c] + Implode([c], rest);
      ExplodeConcat(c, parts[0], Implode([c], rest));
      assert Explode([c], parts[0]) == [parts[0]];
      assert parts == [parts[0]] + rest;
    }
  }

  /** `str_replace($search, $replace, $s)` for a non-empty search string:
      every leftmost non-overlapping occurrence is replaced. */
  function StrReplace(search: string, replace: string, s: string): string
    requires |search| > 0
  {
    Implode(replace, Explode(search, s))
  }

  /** A string with no occurrence of the search string is left alone. */
  lemma StrReplaceAbsent(search: string, replace: string, s: string)
    requires |search| > 0
    requires !Contains(s, search)
    ensures StrReplace(search, replace, s) == s
  {
  }

  /** One occurrence is replaced by the replacement text. */
  lemma StrReplaceOnce(search: string, replace: string, a: string, b: string)
    requires |search| > 0
    requires !Contains(a, search) && !Contains(b, search)
    requires !Contains(a + search[..|search| - 1], search)
    ensures StrReplace(search, replace, a + search + b) == a + replace + b
  {
    var s := a + search + b;
    assert OccursAt(s, search, |a|);
    var t := a + search[..|search| - 1];
    forall j | 0 <= j < |a| ensures !OccursAt(s, search, j) {
      assert s[j..j + |search|] == t[j..j + |search|];
      assert !OccursAt(t, search, j);
    }
    assert IndexOf(s, search) == |a|;
    assert s[..|a|] == a;
    assert s[|a| + |search|..] == b;
    assert Explode(search, b) == [b];
    assert Explode(search, s) == [a, b];
    assert Implode(replace, [a, b]) == a + replace + Implode(replace, [b]);
  }

  // ---------------------------------------------------------------- integers as text

  predicate IsDigit(c: char) { '0' <= c <= '9' }

  predicate AllDigits(s: string) { forall i :: 0 <= i < |s| ==> IsDigit(s[i]) }

  function DigitChar(d: nat): char
    requires d < 10
  {
    ('0' as int + d) as char
  }

  /** The value of a string of decimal digits (most significant first). */
  function DigitsValue(s: string): nat
    requires AllDigits(s)
  {
    if |s| == 0 then 0 else DigitsValue(s[..|s| - 1]) * 10 + (s[|s| - 1] as int - '0' as int)
  }

  /** PHP's decimal rendering of a non-negative integer. */
  function NatToString(n: nat): (r: string)
    ensures |r| > 0 && AllDigits(r)
    ensures |r| > 1 ==> r[0] != '0'
    ensures DigitsValue(r) == n
  {
    if n < 10 then [DigitChar(n)]
    else
      var r := NatToString(n / 10) + [DigitChar(n % 10)];
      assert r[..|r| - 1] == NatToString(n / 10);
      r
  }

  /** A non-empty digit string without a leading zero has a positive value. */
  lemma {:induction false} DigitsValuePositive(t: string)
    requires AllDigits(t) && |t| > 0 && t[0] != '0'
    ensures DigitsValue(t) >= 1
    decreases |t|
  {
    if |t| > 1 {
      DigitsValuePositive(t[..|t| - 1]);
    }
  }

  /** A leading `0` does not change the value of a digit string. */
  lemma {:induction false} DigitsValueLeadingZero(t: string)
    requires AllDigits(t)
    ensures AllDigits("0" + t) && DigitsValue("0" + t) == DigitsValue(t)
    decreases |t|
  {
    if |t| > 0 {
      var p := t[..|t| - 1];
      assert ("0" + t)[..|t|] == "0" + p;
      DigitsValueLeadingZero(p);
    }
  }

  /** Any run of leading zeros does not change the value of a digit string. */
  lemma {:induction false} DigitsValueLeadingZeros(z: string, t: string)
    requires forall i :: 0 <= i < |z| ==> z[i] == '0'
    requires AllDigits(t)
    ensures AllDigits(z + t) && DigitsValue(z + t) == DigitsValue(t)
    decreases |z|
  {
    if |z| > 0 {
      DigitsValueLeadingZeros(z[1..], t);
      assert z + t == "0" + (z[1..] + t);
      DigitsValueLeadingZero(z[1..] + t);
    } else {
      assert z + t == t;
    }
  }

  /** Stripping the leading zeros of a digit string keeps a digit string of the
      same value that starts with a non-zero digit. */
  lemma LTrimZeros(t: string)
    requires AllDigits(t)
    ensures var u := LTrim(t, {'0'});
      && AllDigits(u) && DigitsValue(u) == DigitsValue(t)
      && (|u| > 0 ==> u[0] != '0')
      && (|u| == 0 ==> DigitsValue(t) == 0)
  {
    var u := LTrim(t, {'0'});
    var z := t[..|t| - |u|];
    assert t == z + u;
    assert AllDigits(u) by {
      forall i | 0 <= i < |u| ensures IsDigit(u[i]) {
        assert u[i] == t[|z| + i];
      }
    }
    DigitsValueLeadingZeros(z, u);
  }

  /** A string that is a digit string once its leading zeros are stripped is
      a digit string of the same value. */
  lemma LTrimZerosBack(t: string)
    requires AllDigits(LTrim(t, {'0'}))
    ensures AllDigits(t) && DigitsValue(t) == DigitsValue(LTrim(t, {'0'}))
  {
    var u := LTrim(t, {'0'});
    var z := t[..|t| - |u|];
    assert t == z + u;
    DigitsValueLeadingZeros(z, u);
  }

  /** Printing the value of a digit string without a leading zero gives the
      string back. */
  lemma {:induction false} NatToStringOfDigits(t: string)
    requires AllDigits(t) && |t| > 0 && (|t| > 1 ==> t[0] != '0')
    ensures NatToString(DigitsValue(t)) == t
    decreases |t|
  {
    if |t| > 1 {
      var p := t[..|t| - 1];
      assert p[0] == t[0];
      DigitsValuePositive(p);
      NatToStringOfDigits(p);
      var n := DigitsValue(t);
      assert n / 10 == DigitsValue(p) && n % 10 == t[|t| - 1] as int - '0' as int;
      assert t == p + [t[|t| - 1]];
    }
  }

  /** `(string) $n` for an integer. */
  function IntToString(n: int): (r: string)
    ensures |r| > 0
  {
    if n < 0 then "-" + NatToString(-n) else NatToString(n)
  }

  /** The decimal rendering determines the integer. */
  lemma IntToStringInjective(a: int, b: int)
    requires IntToString(a) == IntToString(b)
    ensures a == b
  {
    if a < 0 && b < 0 {
      assert NatToString(-a) == IntToString(a)[1..] == IntToString(b)[1..] == NatToString(-b);
    }
  }

  lemma IntToStringHasNoChar(n: int, c: char)
    requires c != '-' && !IsDigit(c)
    ensures forall i :: 0 <= i < |IntToString(n)| ==> IntToString(n)[i] != c
  {
    var r := IntToString(n);
    if n < 0 {
      assert forall i :: 1 <= i < |r| ==> r[i] == NatToString(-n)[i - 1];
    }
  }

  /** A decimal integer literal as PHP's numeric strings write it: an optional
      minus sign and at least one digit (leading zeros allowed). */
  predicate IsDecimalText(s: string)
  {
    if |s| > 0 && s[0] == '-' then |s| > 1 && AllDigits(s[1..]) else |s| > 0 && AllDigits(s)
  }

  function DecimalTextValue(s: string): int
    requires IsDecimalText(s)
  {
    if s[0] == '-' then -(DigitsValue(s[1..]) as int) else DigitsValue(s)
  }

  lemma IntToStringIsDecimalText(n: int)
    ensures IsDecimalText(IntToString(n)) && DecimalTextValue(IntToString(n)) == n
  {
    var r := IntToString(n);
    if n < 0 {
      assert r[1..] == NatToString(-n);
    }
  }

  /** `strlen`: the length in bytes of the UTF-8 encoding. */
  function ByteLength(s: string): (r: nat)
    ensures r >= |s|
    ensures r == 0 <==> |s| == 0
  {
    if |s| == 0 then 0 else |Utf8Bytes(s[0])| + ByteLength(s[1..])
  }

  // ---------------------------------------------------------------- PCRE strips

  /** A word character of PCRE's `\w` in the C locale. */
  predicate IsWordChar(c: char)
  {
    ('a' <= c <= 'z') || ('A' <= c <= 'Z') || IsDigit(c) || c == '_'
  }

  /** `preg_replace('#\W+#', '', $s)`. */
  function StripNonWord(s: string): (r: string)
    ensures |r| <= |s|
    ensures forall i :: 0 <= i < |r| ==> IsWordChar(r[i])
  {
    if |s| == 0 then ""
    else (if IsWordChar(s[0]) then [s[0]] else []) + StripNonWord(s[1..])
  }

  lemma {:induction false} StripNonWordAppend(a: string, b: string)
    ensures StripNonWord(a + b) == StripNonWord(a) + StripNonWord(b)
    decreases |a|
  {
    if |a| == 0 {
      assert a + b == b;
    } else {
      assert (a + b)[1..] == a[1..] + b;
      StripNonWordAppend(a[1..], b);
    }
  }

  lemma {:induction false} StripNonWordKeepsWords(s: string)
    requires forall i :: 0 <= i < |s| ==> IsWordChar(s[i])
    ensures StripNonWord(s) == s
    decreases |s|
  {
    if |s| > 0 { StripNonWordKeepsWords(s[1..]); }
  }

  /** A white-space character of PCRE's `\s`: space, tab, newline, vertical tab,
      form feed and carriage return. */
  predicate IsPcreSpace(c: char)
  {
    c == ' ' || c == '\t' || c == '\n' || c == '\U{B}' || c == '\U{C}' || c == '\r'
  }

  /** `preg_replace('#\s+#', '', $s)`. */
  function StripSpace(s: string): (r: string)
    ensures |r| <= |s|
    ensures forall i :: 0 <= i < |r| ==> !IsPcreSpace(r[i])
  {
    if |s| == 0 then ""
    else (if IsPcreSpace(s[0]) then [] else [s[0]]) + StripSpace(s[1..])
  }

  /** Removing white space removes nothing else: it distributes over
      concatenation and leaves a string without white space as it is. */
  lemma {:induction false} StripSpaceAppend(a: string, b: string)
    ensures StripSpace(a + b) == StripSpace(a) + StripSpace(b)
    decreases |a|
  {
    if |a| == 0 {
      assert a + b == b;
    } else {
      assert (a + b)[1..] == a[1..] + b;
      StripSpaceAppend(a[1..], b);
    }
  }

  lemma {:induction false} StripSpaceKeeps(s: string)
    requires forall i :: 0 <= i < |s| ==> !IsPcreSpace(s[i])
    ensures StripSpace(s) == s
    decreases |s|
  {
    if |s| > 0 {
      StripSpaceKeeps(s[1..]);
    }
  }

  // ---------------------------------------------------------------- urlencode

  /** The characters `urlencode` leaves as they are. */
  predicate IsUrlSafe(c: char)
  {
    ('a' <= c <= 'z') || ('A' <= c <= 'Z') || IsDigit(c) || c == '-' || c == '_' || c == '.'
  }

  /** The UTF-8 encoding of one Unicode scalar value, byte by byte. */
  function Utf8Bytes(c: char): (r: seq<nat>)
    ensures 1 <= |r| <= 4
    ensures forall i :: 0 <= i < |r| ==> r[i] < 256
    ensures c as int < 0x80 <==> |r| == 1
    ensures |r| == 1 ==> r[0] == c as int
  {
    var n := c as int;
    if n < 0x80 then [n]
    else if n < 0x800 then [0xC0 + n / 64, 0x80 + n % 64]
    else if n < 0x10000 then [0xE0 + n / 4096, 0x80 + (n / 64) % 64, 0x80 + n % 64]
    else [0xF0 + n / 262144, 0x80 + (n / 4096) % 64, 0x80 + (n / 64) % 64, 0x80 + n % 64]
  }

  const HexDigits: string := "0123456789ABCDEF"

  /** `%XX` with upper-case hexadecimal digits. */
  function PercentByte(b: nat): (r: string)
    requires b < 256
    ensures |r| == 3 && r[0] == '%'
  {
    ['%', HexDigits[b / 16], HexDigits[b % 16]]
  }

  function PercentBytes(bs: seq<nat>): (r: string)
    requires forall i :: 0 <= i < |bs| ==> bs[i] < 256
    ensures |r| == 3 * |bs|
  {
    if |bs| == 0 then "" else PercentByte(bs[0]) + PercentBytes(bs[1..])
  }

  /** `urlencode` applied to one character. */
  function UrlencodeChar(c: char): (r: string)
    ensures |r| >= 1
    ensures r == [c] <==> IsUrlSafe(c)
    ensures |r| == 1 ==> IsUrlSafe(c) || (c == ' ' && r == "+")
  {
    if IsUrlSafe(c) then [c]
    else if c == ' ' then "+"
    else PercentBytes(Utf8Bytes(c))
  }

  /** `urlencode($s)` (application/x-www-form-urlencoded; a space becomes `+`). */
  function Urlencode(s: string): (r: string)
    ensures |r| >= |s|
  {
    if |s| == 0 then "" else UrlencodeChar(s[0]) + Urlencode(s[1..])
  }

  /** `urlencode` changes a string exactly when the string holds a character
      outside `[A-Za-z0-9_.-]`. */
  lemma {:induction false} UrlencodeFixpoint(s: string)
    ensures Urlencode(s) == s <==> forall i :: 0 <= i < |s| ==> IsUrlSafe(s[i])
    decreases |s|
  {
    if |s| > 0 {
      UrlencodeFixpoint(s[1..]);
      var e := UrlencodeChar(s[0]);
      var rest := Urlencode(s[1..]);
      if Urlencode(s) == s {
        if |e| == 1 {
          assert e == s[..1];
          assert rest == s[1..];
        }
      }
      if forall i :: 0 <= i < |s| ==> IsUrlSafe(s[i]) {
        assert forall i :: 0 <= i < |s[1..]| ==> IsUrlSafe(s[1..][i]);
      }
    }
  }
}
