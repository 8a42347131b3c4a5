/** PHP 7 values as the connector sees them: decoded JSON envelopes, entity
    attributes and configuration entries. Arrays keep their insertion order
    and use string keys (a list has the keys "0", "1", ...). The conversions
    here are the ones the connector's code relies on: array access, `isset`,
    string conversion, truthiness, `intval`, numeric strings and loose `==`. */
module PhpValues {
  import opened PhpStrings

  datatype Option<T> = None | Some(value: T)

  /** The identity of an entity in the entity store: entity type, store id and
      unique id. */
  datatype Key = Key(entityType: string, storeId: string, uniqueId: string)

  datatype Value =
    | Null
    | Bool(b: bool)
    | Int(i: int)
    | Num(r: real)
    | Str(s: string)
    | Arr(entries: seq<(string, Value)>)
    | Obj(key: Key)

  /** PHP 7 separates `\Exception`, which the code's `catch` blocks handle, from
      `\Error` (an undefined method, a missing argument, a type mismatch), which
      none of them catches. */
  datatype Thrown = Exception(message: string) | FatalError(message: string)

  datatype Outcome<T> = Ok(value: T) | Threw(error: Thrown)

  const PhpIntMax: int := 0x7FFF_FFFF_FFFF_FFFF
  const PhpIntMin: int := -0x8000_0000_0000_0000

  // ---------------------------------------------------------------- arrays

  function Lookup(entries: seq<(string, Value)>, k: string): Value
  {
    if |entries| == 0 then Null
    else if entries[0].0 == k then entries[0].1
    else Lookup(entries[1..], k)
  }

  /** A value found is the value of an entry with the key, and a key no
      entry has finds NULL. */
  lemma {:induction false} LookupMeaning(entries: seq<(string, Value)>, k: string)
    ensures Lookup(entries, k) != Null ==> exists i :: 0 <= i < |entries| && entries[i] == (k, Lookup(entries, k))
    ensures (forall i :: 0 <= i < |entries| ==> entries[i].0 != k) ==> Lookup(entries, k) == Null
  {
    if |entries| > 0 && entries[0].0 != k {
      LookupMeaning(entries[1..], k);
      if Lookup(entries, k) != Null {
        var i :| 0 <= i < |entries[1..]| && entries[1..][i] == (k, Lookup(entries, k));
        assert entries[i + 1] == (k, Lookup(entries, k));
      }
    }
  }

  /** The lookup finds the first entry with the key. */
  lemma {:induction false} LookupFirst(entries: seq<(string, Value)>, i: nat)
    requires i < |entries|
    requires forall j :: 0 <= j < i ==> entries[j].0 != entries[i].0
    ensures Lookup(entries, entries[i].0) == entries[i].1
    decreases i
  {
    if i > 0 {
      var rest := entries[1..];
      assert rest[i - 1] == entries[i];
      forall j | 0 <= j < i - 1 ensures rest[j].0 != rest[i - 1].0 {
        assert rest[j] == entries[j + 1];
      }
      LookupFirst(rest, i - 1);
    }
  }

  /** `$v[$k]`: NULL when `$v` is not an array or has no such key. */
  function Index(v: Value, k: string): Value
  {
    if v.Arr? then Lookup(v.entries, k) else Null
  }

  /** `isset($v[$k])`. */
  predicate Isset(v: Value, k: string)
  {
    Index(v, k) != Null
  }

  predicate HasKey(entries: seq<(string, Value)>, k: string)
  {
    exists i :: 0 <= i < |entries| && entries[i].0 == k
  }

  function Replace(entries: seq<(string, Value)>, k: string, x: Value): (r: seq<(string, Value)>)
    ensures Lookup(r, k) == x
    ensures forall j :: j != k ==> Lookup(r, j) == Lookup(entries, j)
    ensures |r| == |entries| + (if HasKey(entries, k) then 0 else 1)
  {
    if |entries| == 0 then [(k, x)]
    else if entries[0].0 == k then [(k, x)] + entries[1..]
    else
      var rest := Replace(entries[1..], k, x);
      assert HasKey(entries, k) <==> HasKey(entries[1..], k) by {
        if HasKey(entries, k) {
          var i :| 0 <= i < |entries| && entries[i].0 == k;
          assert entries[1..][i - 1].0 == k;
        }
        if HasKey(entries[1..], k) {
          var i :| 0 <= i < |entries[1..]| && entries[1..][i].0 == k;
          assert entries[i + 1].0 == k;
        }
      }
      [entries[0]] + rest
  }

  /** No key occurs twice, as in every PHP array. */
  predicate DistinctKeys(entries: seq<(string, Value)>)
  {
    forall i, j :: 0 <= i < j < |entries| ==> entries[i].0 != entries[j].0
  }

  lemma HasKeyCons(e: (string, Value), rest: seq<(string, Value)>, j: string)
    ensures HasKey([e] + rest, j) <==> e.0 == j || HasKey(rest, j)
  {
    var s := [e] + rest;
    if HasKey(rest, j) {
      var i :| 0 <= i < |rest| && rest[i].0 == j;
      assert s[i + 1].0 == j;
    }
    if HasKey(s, j) && e.0 != j {
      var i :| 0 <= i < |s| && s[i].0 == j;
      assert rest[i - 1].0 == j;
    }
    if e.0 == j {
      assert s[0].0 == j;
    }
  }

  lemma DistinctCons(e: (string, Value), rest: seq<(string, Value)>)
    ensures DistinctKeys([e] + rest) <==> !HasKey(rest, e.0) && DistinctKeys(rest)
  {
    var s := [e] + rest;
    if DistinctKeys(s) {
      forall a, b | 0 <= a < b < |rest| ensures rest[a].0 != rest[b].0 {
        assert s[a + 1] == rest[a] && s[b + 1] == rest[b];
      }
      forall i | 0 <= i < |rest| ensures rest[i].0 != e.0 {
        assert s[i + 1] == rest[i] && s[0] == e;
      }
    }
    if !HasKey(rest, e.0) && DistinctKeys(rest) {
      forall a, b | 0 <= a < b < |s| ensures s[a].0 != s[b].0 {
        if a == 0 {
          assert s[b] == rest[b - 1];
        } else {
          assert s[a] == rest[a - 1] && s[b] == rest[b - 1];
        }
      }
    }
  }

  /** Replacing a key adds at most that key and keeps the keys distinct. */
  lemma {:induction false} ReplaceKeys(entries: seq<(string, Value)>, k: string, x: Value)
    ensures forall j :: HasKey(Replace(entries, k, x), j) <==> HasKey(entries, j) || j == k
    ensures DistinctKeys(entries) ==> DistinctKeys(Replace(entries, k, x))
    decreases |entries|
  {
    var r := Replace(entries, k, x);
    if |entries| == 0 {
      forall j ensures HasKey(r, j) <==> HasKey(entries, j) || j == k {
        HasKeyCons((k, x), [], j);
        assert r == [(k, x)] + [];
      }
      assert r == [(k, x)] + [];
      DistinctCons((k, x), []);
    } else {
      var rest := entries[1..];
      assert entries == [entries[0]] + rest;
      DistinctCons(entries[0], rest);
      if entries[0].0 == k {
        assert r == [(k, x)] + rest;
        DistinctCons((k, x), rest);
        forall j ensures HasKey(r, j) <==> HasKey(entries, j) || j == k {
          HasKeyCons((k, x), rest, j);
          HasKeyCons(entries[0], rest, j);
        }
      } else {
        var r' := Replace(rest, k, x);
        ReplaceKeys(rest, k, x);
        assert r == [entries[0]] + r';
        DistinctCons(entries[0], r');
        forall j ensures HasKey(r, j) <==> HasKey(entries, j) || j == k {
          HasKeyCons(entries[0], r', j);
          HasKeyCons(entries[0], rest, j);
        }
      }
    }
  }

  /** In an array with distinct keys, each key finds its own entry. */
  lemma LookupDistinct(entries: seq<(string, Value)>, i: nat)
    requires DistinctKeys(entries) && i < |entries|
    ensures Lookup(entries, entries[i].0) == entries[i].1
  {
    LookupFirst(entries, i);
  }

  /** `$v[$k] = $x`: an array gets the key replaced or appended; NULL and FALSE
      turn into a one-entry array; any other scalar is left as it is (PHP only
      warns). */
  function Set(v: Value, k: string, x: Value): (r: Value)
    ensures (v.Arr? || v == Null || v == Bool(false)) ==> Index(r, k) == x
    ensures v.Arr? ==> forall j :: j != k ==> Index(r, j) == Index(v, j)
    ensures !(v.Arr? || v == Null || v == Bool(false)) ==> r == v
  {
    match v
    case Arr(entries) => Arr(Replace(entries, k, x))
    case Null => Arr([(k, x)])
    case Bool(false) => Arr([(k, x)])
    case _ => v
  }

  /** `count($v)`: the entries of an array; PHP 7 counts NULL as 0 and any
      other value as 1. */
  function Count(v: Value): nat
  {
    match v
    case Arr(entries) => |entries|
    case Null => 0
    case _ => 1
  }

  /** The values `foreach` visits: the entries of an array, nothing otherwise. */
  function Elements(v: Value): (r: seq<Value>)
    ensures v.Arr? ==> |r| == |v.entries| && forall i :: 0 <= i < |r| ==> r[i] == v.entries[i].1
    ensures !v.Arr? ==> r == []
  {
    if v.Arr? then seq(|v.entries|, i requires 0 <= i < |v.entries| => v.entries[i].1) else []
  }

  /** A list (keys "0", "1", ...) holding the given values. */
  function List(xs: seq<Value>): (r: Value)
    ensures r.Arr? && |r.entries| == |xs|
    ensures Elements(r) == xs
  {
    Arr(seq(|xs|, i requires 0 <= i < |xs| => (NatToString(i), xs[i])))
  }

  // ---------------------------------------------------------------- conversions

  /** Up to `n` decimals of the fraction `f` (0 <= f < 1), truncated. */
  function FractionDigits(f: real, n: nat): string
    requires 0.0 <= f < 1.0
    decreases n
  {
    if n == 0 || f == 0.0 then ""
    else
      var d := (f * 10.0).Floor;
      assert 0 <= d < 10;
      [DigitChar(d)] + FractionDigits(f * 10.0 - d as real, n - 1)
  }

  /** The string form of a float: integral values print as integers. */
  function RealText(r: real): string
  {
    var whole := r.Floor;
    if r == whole as real then IntToString(whole)
    else if r < 0.0 then
      var m := -r;
      "-" + IntToString(m.Floor) + "." + FractionDigits(m - m.Floor as real, 14)
    else IntToString(whole) + "." + FractionDigits(r - whole as real, 14)
  }

  /** `(string) $v`. */
  function Text(v: Value): string
  {
    match v
    case Null => ""
    case Bool(b) => if b then "1" else ""
    case Int(i) => IntToString(i)
    case Num(r) => RealText(r)
    case Str(s) => s
    case Arr(_) => "Array"
    case Obj(_) => ""
  }

  /** `(bool) $v`. */
  predicate Truthy(v: Value)
  {
    match v
    case Null => false
    case Bool(b) => b
    case Int(i) => i != 0
    case Num(r) => r != 0.0
    case Str(s) => s != "" && s != "0"
    case Arr(entries) => |entries| > 0
    case Obj(_) => true
  }

  /** A string is true exactly when it is neither empty nor "0". */
  lemma TruthyString(s: string)
    ensures Truthy(Str(s)) <==> (|s| > 0 && s != "0")
  {
  }

  // ---------------------------------------------------------------- numeric strings

  /** The white space a numeric string may start with. */
  predicate IsNumericSpace(c: char)
  {
    c == ' ' || c == '\t' || c == '\n' || c == '\r' || c == '\U{B}' || c == '\U{C}'
  }

  function SkipSpace(s: string, i: nat): (r: nat)
    requires i <= |s|
    ensures i <= r <= |s|
    ensures forall k :: i <= k < r ==> IsNumericSpace(s[k])
    ensures r < |s| ==> !IsNumericSpace(s[r])
    decreases |s| - i
  {
    if i < |s| && IsNumericSpace(s[i]) then SkipSpace(s, i + 1) else i
  }

  function DigitRun(s: string, i: nat): (r: nat)
    requires i <= |s|
    ensures i <= r <= |s|
    ensures AllDigits(s[i..r])
    ensures r < |s| ==> !IsDigit(s[r])
    decreases |s| - i
  {
    if i < |s| && IsDigit(s[i]) then
      var r := DigitRun(s, i + 1);
      assert s[i..r] == [s[i]] + s[i + 1..r];
      r
    else i
  }

  /** The value of the digits after a decimal point: `0.` followed by `ds`. */
  function FractionValue(ds: string): real
    requires AllDigits(ds)
  {
    if |ds| == 0 then 0.0 else ((ds[0] as int - '0' as int) as real + FractionValue(ds[1..])) / 10.0
  }

  /** How the leading part of a string reads as a number: where the sign and
      the digits start and end. */
  datatype NumberShape = NumberShape(negative: bool, intStart: nat, intEnd: nat,
                                     hasPoint: bool, fracEnd: nat)

  function Shape(s: string): (r: NumberShape)
    ensures r.intStart <= r.intEnd <= |s|
    ensures r.hasPoint ==> r.intEnd < |s| && s[r.intEnd] == '.' && r.intEnd + 1 <= r.fracEnd <= |s|
    ensures !r.hasPoint ==> r.fracEnd == r.intEnd
  {
    var i0 := SkipSpace(s, 0);
    var signed := i0 < |s| && (s[i0] == '+' || s[i0] == '-');
    var i1 := if signed then i0 + 1 else i0;
    var j := DigitRun(s, i1);
    if j < |s| && s[j] == '.' then
      NumberShape(signed && s[i0] == '-', i1, j, true, DigitRun(s, j + 1))
    else
      NumberShape(signed && s[i0] == '-', i1, j, false, j)
  }

  /** PHP 7's numeric strings (`is_numeric`), without exponents: optional
      leading white space, an optional sign and digits with an optional
      fraction, and nothing after them. */
  predicate IsNumericText(s: string)
  {
    var sh := Shape(s);
    (sh.intEnd > sh.intStart || (sh.hasPoint && sh.fracEnd > sh.intEnd + 1)) && sh.fracEnd == |s|
  }

  /** The number the leading part of a string stands for, as PHP 7's
      arithmetic and comparisons read it (0 when there is no leading number). */
  function NumericPrefix(s: string): real
  {
    var sh := Shape(s);
    var whole := DigitsValue(s[sh.intStart..sh.intEnd]) as real;
    var frac := if sh.hasPoint then FractionValue(s[sh.intEnd + 1..sh.fracEnd]) else 0.0;
    if sh.negative then -(whole + frac) else whole + frac
  }

  function Clamp(n: int): (r: int)
    ensures PhpIntMin <= r <= PhpIntMax
    ensures PhpIntMin <= n <= PhpIntMax ==> r == n
  {
    if n > PhpIntMax then PhpIntMax else if n < PhpIntMin then PhpIntMin else n
  }

  /** `intval($s)` on a string: the leading integer, saturated at the bounds of
      a 64-bit PHP integer. */
  function StrIntval(s: string): (r: int)
    ensures PhpIntMin <= r <= PhpIntMax
  {
    var sh := Shape(s);
    var n: int := DigitsValue(s[sh.intStart..sh.intEnd]);
    Clamp(if sh.negative then -n else n)
  }

  /** `intval($v)`. */
  function Intval(v: Value): int
  {
    match v
    case Null => 0
    case Bool(b) => if b then 1 else 0
    case Int(i) => i
    case Num(r) => if r >= 0.0 then r.Floor else -((-r).Floor)
    case Str(s) => StrIntval(s)
    case Arr(entries) => if |entries| > 0 then 1 else 0
    case Obj(_) => 1
  }

  /** The number a value stands for in arithmetic. */
  function Number(v: Value): real
  {
    match v
    case Null => 0.0
    case Bool(b) => if b then 1.0 else 0.0
    case Int(i) => i as real
    case Num(r) => r
    case Str(s) => NumericPrefix(s)
    case Arr(_) => 0.0
    case Obj(_) => 1.0
  }

  predicate IsNumber(v: Value)
  {
    v.Int? || v.Num?
  }

  /** `is_numeric($v)`. */
  predicate IsNumeric(v: Value)
  {
    IsNumber(v) || (v.Str? && IsNumericText(v.s))
  }

  /** A decimal integer text is a numeric string with the same value. */
  lemma DecimalTextIsNumeric(s: string)
    requires IsDecimalText(s)
    ensures IsNumericText(s) && NumericPrefix(s) == DecimalTextValue(s) as real
    ensures StrIntval(s) == Clamp(DecimalTextValue(s))
  {
    var d := if s[0] == '-' then 1 else 0;
    assert !IsNumericSpace(s[0]);
    assert SkipSpace(s, 0) == 0;
    DigitRunAll(s, d);
    var sh := Shape(s);
    assert sh == NumberShape(d == 1, d, |s|, false, |s|);
    assert s[d..|s|] == s[d..];
    if d == 0 {
      assert s[d..] == s;
    }
  }

  /** A text of decimal digits reads as its digits' value, saturated. */
  lemma DigitsIntval(s: string)
    requires |s| > 0 && AllDigits(s)
    ensures StrIntval(s) == Clamp(DigitsValue(s))
  {
    assert !IsNumericSpace(s[0]);
    assert SkipSpace(s, 0) == 0;
    assert s[0..] == s;
    DigitRunAll(s, 0);
    assert Shape(s) == NumberShape(false, 0, |s|, false, |s|);
    assert s[0..|s|] == s;
  }

  lemma DigitRunAll(s: string, i: nat)
    requires i <= |s| && AllDigits(s[i..])
    ensures DigitRun(s, i) == |s|
    decreases |s| - i
  {
    if i < |s| {
      assert IsDigit(s[i..][0]);
      assert s[i + 1..] == s[i..][1..];
      DigitRunAll(s, i + 1);
    }
  }

  // ---------------------------------------------------------------- loose comparison

  /** PHP 7's `==`. Booleans and NULL compare by truthiness (NULL against a
      string by the empty string), numbers numerically, a number and a string by
      the string's leading number, two strings numerically when both are
      numeric and literally otherwise, arrays by their key/value pairs. */
  predicate LooseEq(a: Value, b: Value)
    decreases a, 2, 0
  {
    if a.Bool? then a.b == Truthy(b)
    else if b.Bool? then Truthy(a) == b.b
    else if a.Null? && b.Null? then true
    else if a.Null? then (if b.Str? then b.s == "" else !Truthy(b))
    else if b.Null? then (if a.Str? then a.s == "" else !Truthy(a))
    else if IsNumber(a) && IsNumber(b) then Number(a) == Number(b)
    else if IsNumber(a) && b.Str? then Number(a) == NumericPrefix(b.s)
    else if a.Str? && IsNumber(b) then NumericPrefix(a.s) == Number(b)
    else if a.Str? && b.Str? then
      if IsNumericText(a.s) && IsNumericText(b.s) then NumericPrefix(a.s) == NumericPrefix(b.s)
      else a.s == b.s
    else if a.Arr? && b.Arr? then
      |a.entries| == |b.entries| && LooseEntries(a, 0, b)
    else if a.Obj? && b.Obj? then a.key == b.key
    else false
  }

  /** Every entry of the array `a` from position `i` on has its key in the
      array `b` with a loosely equal value. */
  predicate LooseEntries(a: Value, i: nat, b: Value)
    requires a.Arr? && b.Arr?
    decreases a, 1, |a.entries| - i
  {
    i >= |a.entries| || (LooseFind(a, i, b, 0) && LooseEntries(a, i + 1, b))
  }

  /** The entry of `a` at position `i` has its key in the array `b`, at
      position `j` or later, with a loosely equal value. */
  predicate LooseFind(a: Value, i: nat, b: Value, j: nat)
    requires a.Arr? && b.Arr? && i < |a.entries|
    decreases a, 0, |b.entries| - j
  {
    j < |b.entries| &&
    ((a.entries[i].0 == b.entries[j].0 && LooseEq(a.entries[i].1, b.entries[j].1)) || LooseFind(a, i, b, j + 1))
  }

  /** An entry loosely equal to one at position `j` or later is found. */
  lemma {:induction false} LooseFound(a: Value, i: nat, b: Value, j: nat, k: nat)
    requires a.Arr? && b.Arr? && i < |a.entries| && j <= k < |b.entries|
    requires a.entries[i].0 == b.entries[k].0 && LooseEq(a.entries[i].1, b.entries[k].1)
    ensures LooseFind(a, i, b, j)
    decreases k - j
  {
    if j < k {
      LooseFound(a, i, b, j + 1, k);
    }
  }

  /** Every value is loosely equal to itself; for arrays, each entry meets
      itself at its own position. */
  lemma {:induction false} LooseEqReflexive(v: Value)
    ensures LooseEq(v, v)
    decreases v, 1
  {
    if v.Arr? {
      LooseEntriesReflexive(v, |v.entries|);
    }
  }

  lemma {:induction false} LooseEntriesReflexive(v: Value, n: nat)
    requires v.Arr? && n <= |v.entries|
    ensures LooseEntries(v, |v.entries| - n, v)
    decreases v, 0, n
  {
    if n > 0 {
      var i := |v.entries| - n;
      assert v.entries[i] in v.entries;
      LooseEqReflexive(v.entries[i].1);
      LooseFound(v, i, v, 0, i);
      LooseEntriesReflexive(v, n - 1);
    }
  }

  /** A string ending in a dash is no numeric string: a number ends in a
      digit or its point. */
  lemma TrailingDashNotNumeric(s: string)
    requires |s| > 0 && s[|s| - 1] == '-'
    ensures !IsNumericText(s)
  {
    var sh := Shape(s);
    assert sh.fracEnd == |s| ==> IsDigit(s[|s| - 1]) || s[|s| - 1] == '.' || sh.intEnd == sh.intStart;
  }

  /** Two plain strings that are not numbers compare literally. */
  lemma LooseEqStrings(s: string, t: string)
    requires !IsNumericText(s)
    ensures LooseEq(Str(s), Str(t)) <==> s == t
    ensures LooseEq(Str(t), Str(s)) <==> s == t
  {
  }

  /** `in_array($needle, $haystack)` with the default loose comparison. */
  predicate InArray(needle: Value, haystack: seq<Value>)
  {
    exists i :: 0 <= i < |haystack| && LooseEq(needle, haystack[i])
  }

  /** For a needle that is an ordinary string, `in_array` over strings is plain
      membership. */
  lemma InArrayStrings(needle: string, haystack: seq<string>)
    requires !IsNumericText(needle)
    ensures InArray(Str(needle), seq(|haystack|, i requires 0 <= i < |haystack| => Str(haystack[i])))
            <==> needle in haystack
  {
    var hs := seq(|haystack|, i requires 0 <= i < |haystack| => Str(haystack[i]));
    if needle in haystack {
      var i :| 0 <= i < |haystack| && haystack[i] == needle;
      assert LooseEq(Str(needle), hs[i]);
    }
  }
}
