/** Shared vocabulary: optional values, left-fold sums, the JavaScript string and array
    operations the application relies on (split, slice, padStart, parseInt, toLowerCase,
    includes, string comparison) and a stable sort parameterised by a comparator. */
module Common {

  datatype Option<T> = None | Some(value: T)

  /** What a fetch left in a state variable that the page expects to be an array:
      `Array.isArray` holds of it, or not. */
  datatype Fetched<T> = Rows(rows: seq<T>) | NotArray

  /** The JavaScript values the application inspects in decoded token claims and request
      fields. Numbers are integers: the claims the route gate reads are an id, a role
      string and a verified flag, so a fractional or NaN number is not represented.
      Arrays and other objects are all `Obj`, which is truthy, as any object is; `String`
      of an array (its elements joined by commas) is not modelled. */
  datatype JsValue = Undefined | Null | Bool(b: bool) | Num(n: int) | Str(s: string) | Obj

  /** JavaScript truthiness (`if (v)`). */
  predicate Truthy(v: JsValue)
  {
    match v
    case Undefined => false
    case Null => false
    case Bool(b) => b
    case Num(n) => n != 0
    case Str(s) => s != ""
    case Obj => true
  }

  /** `String(v)`. */
  function JsString(v: JsValue): string
  {
    match v
    case Undefined => "undefined"
    case Null => "null"
    case Bool(b) => if b then "true" else "false"
    case Num(n) => if n < 0 then "-" + NatToString(-n) else NatToString(n)
    case Str(s) => s
    case Obj => "[object Object]"
  }

  // ------------------------------------------------------------------
  // Sums, as `reduce((acc, x) => acc + f(x), 0)`: a left fold from zero.
  // ------------------------------------------------------------------

  function SumR<T>(s: seq<T>, f: T -> real): real
  {
    if s == [] then 0.0 else SumR(s[..|s| - 1], f) + f(s[|s| - 1])
  }

  function SumI<T>(s: seq<T>, f: T -> int): int
  {
    if s == [] then 0 else SumI(s[..|s| - 1], f) + f(s[|s| - 1])
  }

  /** A sum distributes over concatenation. */
  lemma {:induction false} SumRAppend<T>(a: seq<T>, b: seq<T>, f: T -> real)
    ensures SumR(a + b, f) == SumR(a, f) + SumR(b, f)
  {
    if b == [] {
      assert a + b == a;
    } else {
      assert (a + b)[..|a + b| - 1] == a + b[..|b| - 1];
      SumRAppend(a, b[..|b| - 1], f);
    }
  }

  lemma {:induction false} SumIAppend<T>(a: seq<T>, b: seq<T>, f: T -> int)
    ensures SumI(a + b, f) == SumI(a, f) + SumI(b, f)
  {
    if b == [] {
      assert a + b == a;
    } else {
      assert (a + b)[..|a + b| - 1] == a + b[..|b| - 1];
      SumIAppend(a, b[..|b| - 1], f);
    }
  }

  /** Summing one more element at the end adds its value. */
  lemma SumRSnoc<T>(s: seq<T>, x: T, f: T -> real)
    ensures SumR(s + [x], f) == SumR(s, f) + f(x)
  {
    assert (s + [x])[..|s|] == s;
  }

  lemma SumISnoc<T>(s: seq<T>, x: T, f: T -> int)
    ensures SumI(s + [x], f) == SumI(s, f) + f(x)
  {
    assert (s + [x])[..|s|] == s;
  }

  lemma SumRCons<T>(x: T, s: seq<T>, f: T -> real)
    ensures SumR([x] + s, f) == f(x) + SumR(s, f)
  {
    SumRAppend([x], s, f);
    assert [x][..0] == [];
  }

  lemma SumICons<T>(x: T, s: seq<T>, f: T -> int)
    ensures SumI([x] + s, f) == f(x) + SumI(s, f)
  {
    SumIAppend([x], s, f);
    assert [x][..0] == [];
  }

  /** Replacing one element moves a sum by the difference. */
  lemma {:induction false} SumRUpdate<T>(s: seq<T>, i: nat, x: T, f: T -> real)
    requires i < |s|
    ensures SumR(s[i := x], f) == SumR(s, f) - f(s[i]) + f(x)
  {
    var n := |s| - 1;
    if i < n {
      assert s[i := x][..n] == s[..n][i := x];
      SumRUpdate(s[..n], i, x, f);
    } else {
      assert s[i := x][..n] == s[..n];
    }
  }

  lemma {:induction false} SumIUpdate<T>(s: seq<T>, i: nat, x: T, f: T -> int)
    requires i < |s|
    ensures SumI(s[i := x], f) == SumI(s, f) - f(s[i]) + f(x)
  {
    var n := |s| - 1;
    if i < n {
      assert s[i := x][..n] == s[..n][i := x];
      SumIUpdate(s[..n], i, x, f);
    } else {
      assert s[i := x][..n] == s[..n];
    }
  }

  /** A sum of a pointwise sum is the sum of the two sums. */
  lemma {:induction false} SumRSplit<T>(s: seq<T>, f: T -> real, g: T -> real, h: T -> real)
    requires forall x :: f(x) == g(x) + h(x)
    ensures SumR(s, f) == SumR(s, g) + SumR(s, h)
  {
    if s != [] {
      SumRSplit(s[..|s| - 1], f, g, h);
    }
  }

  /** A sum of a scaled quantity is the scaled sum. */
  lemma {:induction false} SumRScale<T>(s: seq<T>, f: T -> real, g: T -> real, k: real)
    requires forall x :: g(x) == f(x) * k
    ensures SumR(s, g) == SumR(s, f) * k
  {
    if s != [] {
      SumRScale(s[..|s| - 1], f, g, k);
    }
  }

  lemma {:induction false} SumRZero<T>(s: seq<T>, f: T -> real)
    requires forall x :: f(x) == 0.0
    ensures SumR(s, f) == 0.0
  {
    if s != [] {
      SumRZero(s[..|s| - 1], f);
    }
  }

  /** Summing a non-negative quantity gives a non-negative total. */
  lemma {:induction false} SumRNonNegative<T>(s: seq<T>, f: T -> real)
    requires forall i :: 0 <= i < |s| ==> f(s[i]) >= 0.0
    ensures SumR(s, f) >= 0.0
  {
    if s != [] {
      SumRNonNegative(s[..|s| - 1], f);
    }
  }

  // ------------------------------------------------------------------
  // Characters and strings (ASCII case mapping; `\s` taken as ASCII white space).
  // ------------------------------------------------------------------

  predicate IsDigit(c: char) { '0' <= c <= '9' }

  predicate IsLower(c: char) { 'a' <= c <= 'z' }

  predicate IsUpper(c: char) { 'A' <= c <= 'Z' }

  predicate IsSpace(c: char) { c == ' ' || c == '\t' || c == '\n' || c == '\r' || c == '\U{000C}' || c == '\U{000B}' }

  function LowerChar(c: char): char
  {
    if IsUpper(c) then (c as int + 32) as char else c
  }

  /** `String.prototype.toLowerCase` restricted to ASCII letters. */
  function ToLower(s: string): (r: string)
    ensures |r| == |s|
    ensures forall i :: 0 <= i < |s| ==> r[i] == LowerChar(s[i])
  {
    seq(|s|, i requires 0 <= i < |s| => LowerChar(s[i]))
  }

  /** Code units a character takes in UTF-16: two (a surrogate pair) above U+FFFF. */
  function CodeUnits(c: char): nat
  {
    if c as int > 0xFFFF then 2 else 1
  }

  /** `s.length`: JavaScript strings count UTF-16 code units, not characters. */
  function JsLength(s: string): (n: nat)
    ensures |s| <= n <= 2 * |s|
    ensures (forall i :: 0 <= i < |s| ==> s[i] as int <= 0xFFFF) ==> n == |s|
  {
    if s == [] then 0 else CodeUnits(s[0]) + JsLength(s[1..])
  }

  /** `s.includes(t)`: t occurs somewhere in s (the empty string occurs everywhere). */
  predicate Includes(s: string, t: string)
  {
    exists i :: 0 <= i <= |s| - |t| && OccursAt(s, t, i)
  }

  predicate OccursAt(s: string, t: string, i: int)
  {
    0 <= i <= |s| - |t| && s[i..i + |t|] == t
  }

  /** `s.startsWith(p)`. */
  predicate StartsWith(s: string, p: string)
  {
    |p| <= |s| && s[..|p|] == p
  }

  predicate NoChar(s: string, c: char)
  {
    forall i :: 0 <= i < |s| ==> s[i] != c
  }

  /** `s.split(sep)` for a one-character separator. */
  function Split(s: string, sep: char): (parts: seq<string>)
    ensures |parts| >= 1
    ensures forall k :: 0 <= k < |parts| ==> NoChar(parts[k], sep)
    decreases |s|
  {
    if s == [] then [""]
    else if s[0] == sep then [""] + Split(s[1..], sep)
    else
      var rest := Split(s[1..], sep);
      [[s[0]] + rest[0]] + rest[1..]
  }

  /** A string without the separator is not split at all. */
  lemma {:induction false} SplitNoSep(a: string, sep: char)
    requires NoChar(a, sep)
    ensures Split(a, sep) == [a]
    decreases |a|
  {
    if a != [] {
      SplitNoSep(a[1..], sep);
      assert [a[0]] + a[1..] == a;
    }
  }

  /** Splitting `a + sep + b` where `a` holds no separator yields `a` followed by the parts of `b`. */
  lemma {:induction false} SplitAfterField(a: string, sep: char, b: string)
    requires NoChar(a, sep)
    ensures Split(a + [sep] + b, sep) == [a] + Split(b, sep)
    decreases |a|
  {
    if a == [] {
      assert a + [sep] + b == [sep] + b;
      assert ([sep] + b)[1..] == b;
    } else {
      var s := a + [sep] + b;
      assert s[0] == a[0];
      assert s[1..] == a[1..] + [sep] + b;
      SplitAfterField(a[1..], sep, b);
      assert [a[0]] + a[1..] == a;
    }
  }

  // ------------------------------------------------------------------
  // Decimal printing, `padStart(width, "0")` and `parseInt(s)` (base 10).
  // ------------------------------------------------------------------

  function DigitChar(d: nat): char
    requires d < 10
  {
    ('0' as int + d) as char
  }

  function DigitValue(c: char): nat
    requires IsDigit(c)
  {
    c as int - '0' as int
  }

  predicate AllDigits(s: string)
  {
    forall i :: 0 <= i < |s| ==> IsDigit(s[i])
  }

  /** The value of a string of decimal digits (leading zeros allowed). */
  function DigitsValue(s: string): nat
    requires AllDigits(s)
  {
    if s == [] then 0 else DigitsValue(s[..|s| - 1]) * 10 + DigitValue(s[|s| - 1])
  }

  /** `String(n)` for a natural number. */
  function NatToString(n: nat): (r: string)
    ensures |r| >= 1 && AllDigits(r)
    ensures DigitsValue(r) == n
    ensures |r| > 1 ==> r[0] != '0'
  {
    if n < 10 then [DigitChar(n)]
    else
      var r := NatToString(n / 10) + [DigitChar(n % 10)];
      assert r[..|r| - 1] == NatToString(n / 10);
      r
  }

  function Zeros(k: nat): (r: string)
    ensures |r| == k && AllDigits(r) && DigitsValue(r) == 0
  {
    if k == 0 then []
    else
      var r := Zeros(k - 1) + ['0'];
      assert r[..|r| - 1] == Zeros(k - 1);
      r
  }

  /** `s.padStart(width, "0")`. */
  function PadStart(s: string, width: nat): (r: string)
    ensures |r| == if |s| >= width then |s| else width
    ensures AllDigits(s) ==> AllDigits(r) && DigitsValue(r) == DigitsValue(s)
  {
    if |s| >= width then s
    else
      var r := Zeros(width - |s|) + s;
      if AllDigits(s) then
        LeadingZerosValue(width - |s|, s);
        r
      else r
  }

  /** Leading zeros do not change the value of a digit string. */
  lemma {:induction false} LeadingZerosValue(k: nat, s: string)
    requires AllDigits(s)
    ensures AllDigits(Zeros(k) + s) && DigitsValue(Zeros(k) + s) == DigitsValue(s)
    decreases |s|
  {
    var z := Zeros(k);
    if s == [] {
      assert z + s == z;
    } else {
      var t := z + s;
      assert t[..|t| - 1] == z + s[..|s| - 1];
      assert t[|t| - 1] == s[|s| - 1];
      LeadingZerosValue(k, s[..|s| - 1]);
    }
  }

  /** The longest prefix of decimal digits. */
  function DigitPrefix(s: string): (r: string)
    ensures AllDigits(r) && |r| <= |s| && r == s[..|r|]
    ensures |r| < |s| ==> !IsDigit(s[|r|])
  {
    if s == [] || !IsDigit(s[0]) then []
    else [s[0]] + DigitPrefix(s[1..])
  }

  lemma {:induction false} DigitPrefixOfDigits(s: string)
    requires AllDigits(s)
    ensures DigitPrefix(s) == s
    decreases |s|
  {
    if s != [] {
      DigitPrefixOfDigits(s[1..]);
      assert [s[0]] + s[1..] == s;
    }
  }

  /** `parseInt(s, 10)` on its decimal-digit prefix: `None` stands for `NaN`. */
  function ParseInt(s: string): (r: Option<nat>)
    ensures r.None? <==> (s == [] || !IsDigit(s[0]))
  {
    var p := DigitPrefix(s);
    if p == [] then None else Some(DigitsValue(p))
  }

  /** The string without its leading white space. */
  function TrimStart(s: string): (r: string)
    ensures |r| <= |s|
    ensures r != [] ==> !IsSpace(r[0])
  {
    if s != [] && IsSpace(s[0]) then TrimStart(s[1..]) else s
  }

  /** The digits after an optional leading '+' or '-'. */
  function Unsigned(t: string): string
  {
    if t != [] && (t[0] == '-' || t[0] == '+') then t[1..] else t
  }

  predicate Negative(t: string)
  {
    t != [] && t[0] == '-'
  }

  /** `parseInt(s)` on a decimal input: leading white space is skipped, one '+' or '-' sign
      is read, then the longest run of digits, negated after '-'; no digits is `NaN`
      (`None`). */
  function ParseSignedInt(s: string): (r: Option<int>)
    ensures r.None? <==> ParseInt(Unsigned(TrimStart(s))).None?
    ensures r.Some? && !Negative(TrimStart(s)) ==> r.value == ParseInt(Unsigned(TrimStart(s))).value
    ensures r.Some? && Negative(TrimStart(s)) ==> r.value == -(ParseInt(Unsigned(TrimStart(s))).value as int)
  {
    var t := TrimStart(s);
    match ParseInt(Unsigned(t))
    case None => None
    case Some(n) => if Negative(t) then Some(-(n as int)) else Some(n as int)
  }

  /** A minus sign before a number negates it. */
  lemma ParseSignedNegative(d: string, n: nat)
    requires ParseInt(d) == Some(n)
    ensures ParseSignedInt("-" + d) == Some(-(n as int))
  {
    var t := "-" + d;
    assert t[0] == '-' && t[1..] == d;
    assert TrimStart(t) == t;
    assert Negative(t) && Unsigned(t) == d;
  }

  /** White space before the number is skipped. */
  lemma ParseSignedSkipsSpace(c: char, t: string)
    requires IsSpace(c)
    ensures ParseSignedInt([c] + t) == ParseSignedInt(t)
  {
    var u := [c] + t;
    assert u[0] == c && u[1..] == t;
    assert TrimStart(u) == TrimStart(t);
    ParseSignedByTrim(u, t);
  }

  /** The parse depends on the input only through its trimmed form. */
  lemma ParseSignedByTrim(a: string, b: string)
    requires TrimStart(a) == TrimStart(b)
    ensures ParseSignedInt(a) == ParseSignedInt(b)
  {
  }

  /** An unsigned run of digits parses as `ParseInt` does. */
  lemma ParseSignedUnsigned(d: string)
    requires d != [] && IsDigit(d[0])
    ensures ParseSignedInt(d).Some? && ParseSignedInt(d).value == ParseInt(d).value as int
  {
    assert TrimStart(d) == d;
    assert Unsigned(d) == d;
  }

  /** Parsing a zero-padded decimal rendering gives the number back. */
  lemma ParsePadded(n: nat, width: nat)
    ensures ParseInt(PadStart(NatToString(n), width)) == Some(n)
  {
    var p := PadStart(NatToString(n), width);
    DigitPrefixOfDigits(p);
  }

  // ------------------------------------------------------------------
  // String order: code-point order, the binary collation of a database sort
  // on a string field; JavaScript `<` agrees with it except between a
  // character above U+FFFF and one from U+E000 to U+FFFF.
  // ------------------------------------------------------------------

  predicate StrLt(a: string, b: string)
  {
    if a == [] then b != []
    else if b == [] then false
    else if a[0] != b[0] then a[0] < b[0]
    else StrLt(a[1..], b[1..])
  }

  predicate StrLe(a: string, b: string)
  {
    !StrLt(b, a)
  }

  lemma {:induction false} StrLtIrreflexive(a: string)
    ensures !StrLt(a, a)
    decreases |a|
  {
    if a != [] {
      StrLtIrreflexive(a[1..]);
    }
  }

  lemma {:induction false} StrLtTotal(a: string, b: string)
    ensures a == b || StrLt(a, b) || StrLt(b, a)
    decreases |a|
  {
    if a != [] && b != [] && a[0] == b[0] {
      StrLtTotal(a[1..], b[1..]);
      if a[1..] == b[1..] {
        assert a == [a[0]] + a[1..] && b == [b[0]] + b[1..];
      }
    }
  }

  lemma {:induction false} StrLtAsymmetric(a: string, b: string)
    ensures !(StrLt(a, b) && StrLt(b, a))
    decreases |a|
  {
    if a != [] && b != [] && a[0] == b[0] {
      StrLtAsymmetric(a[1..], b[1..]);
    }
  }

  lemma {:induction false} StrLtTransitive(a: string, b: string, c: string)
    requires StrLt(a, b) && StrLt(b, c)
    ensures StrLt(a, c)
    decreases |a|
  {
    if a != [] && a[0] == b[0] && b[0] == c[0] {
      StrLtTransitive(a[1..], b[1..], c[1..]);
    }
  }

  lemma StrLeTotal(a: string, b: string)
    ensures StrLe(a, b) || StrLe(b, a)
  {
    StrLtAsymmetric(a, b);
  }

  lemma StrLeTransitive(a: string, b: string, c: string)
    requires StrLe(a, b) && StrLe(b, c)
    ensures StrLe(a, c)
  {
    if StrLt(c, a) {
      StrLtTotal(a, b);
      if StrLt(a, b) {
        StrLtTransitive(c, a, b);
      }
    }
  }

  // ------------------------------------------------------------------
  // `Array.prototype.slice(start, end)` with negative indices counted from the end.
  // ------------------------------------------------------------------

  function ClampIndex(x: int, n: nat): (r: nat)
    ensures r <= n
  {
    if x < 0 then (if n + x < 0 then 0 else n + x) else if x > n then n else x
  }

  function JsSlice<T>(s: seq<T>, start: int, end: int): (r: seq<T>)
    ensures |r| <= |s|
    ensures 0 <= start <= end ==> |r| <= end - start
    ensures 0 <= start <= end <= |s| ==> r == s[start..end]
    ensures 0 <= start ==> forall k :: 0 <= k < |r| ==> start + k < |s| && r[k] == s[start + k]
  {
    var a := ClampIndex(start, |s|);
    var b := ClampIndex(end, |s|);
    if a < b then s[a..b] else []
  }

  // ------------------------------------------------------------------
  // Filtering, as `Array.prototype.filter`.
  // ------------------------------------------------------------------

  function Filter<T(==)>(s: seq<T>, keep: T -> bool): (r: seq<T>)
    ensures |r| <= |s|
    ensures forall i :: 0 <= i < |r| ==> r[i] in s && keep(r[i])
    ensures forall i :: 0 <= i < |s| && keep(s[i]) ==> s[i] in r
  {
    if s == [] then []
    else if keep(s[0]) then [s[0]] + Filter(s[1..], keep)
    else Filter(s[1..], keep)
  }

  lemma {:induction false} FilterAll<T>(s: seq<T>, keep: T -> bool)
    requires forall i :: 0 <= i < |s| ==> keep(s[i])
    ensures Filter(s, keep) == s
  {
    if s != [] {
      FilterAll(s[1..], keep);
      assert [s[0]] + s[1..] == s;
    }
  }

  /** Filters that agree on every element keep the same elements. */
  lemma {:induction false} FilterSameOn<T>(s: seq<T>, k1: T -> bool, k2: T -> bool)
    requires forall i :: 0 <= i < |s| ==> k1(s[i]) == k2(s[i])
    ensures Filter(s, k1) == Filter(s, k2)
  {
    if s != [] {
      FilterSameOn(s[1..], k1, k2);
    }
  }

  lemma {:induction false} FilterNone<T>(s: seq<T>, keep: T -> bool)
    requires forall i :: 0 <= i < |s| ==> !keep(s[i])
    ensures Filter(s, keep) == []
  {
    if s != [] {
      FilterNone(s[1..], keep);
    }
  }

  /** Summing with a guard that zeroes some elements is summing the kept elements. */
  lemma {:induction false} SumRGuarded<T>(s: seq<T>, keep: T -> bool, f: T -> real, g: T -> real)
    requires forall x :: g(x) == if keep(x) then f(x) else 0.0
    ensures SumR(s, g) == SumR(Filter(s, keep), f)
  {
    if s != [] {
      SumRGuarded(s[1..], keep, f, g);
      assert s == [s[0]] + s[1..];
      SumRCons(s[0], s[1..], g);
      if keep(s[0]) {
        SumRCons(s[0], Filter(s[1..], keep), f);
      }
    }
  }

  // ------------------------------------------------------------------
  // `[...new Set(s)]`: first appearances, in order.
  // ------------------------------------------------------------------

  function Distinct<T(==)>(s: seq<T>): (r: seq<T>)
    ensures |r| <= |s|
    ensures forall i :: 0 <= i < |r| ==> r[i] in s
    ensures forall i :: 0 <= i < |s| ==> s[i] in r
    ensures forall i, j :: 0 <= i < j < |r| ==> r[i] != r[j]
  {
    if s == [] then []
    else
      var r := Distinct(s[..|s| - 1]);
      if s[|s| - 1] in r then r else r + [s[|s| - 1]]
  }

  // ------------------------------------------------------------------
  // `Array.prototype.sort(compare)` is stable: an element moves ahead of
  // another only when the comparator says it must. `le(a, b)` holds when
  // `compare(a, b) <= 0`, i.e. `a` may stay in front of `b`.
  // ------------------------------------------------------------------

  function Insert<T(==)>(x: T, s: seq<T>, le: (T, T) -> bool): (r: seq<T>)
    ensures |r| == |s| + 1
    ensures multiset(r) == multiset(s) + multiset{x}
  {
    if s == [] then [x]
    else if le(x, s[0]) then [x] + s
    else
      assert s == [s[0]] + s[1..];
      [s[0]] + Insert(x, s[1..], le)
  }

  /** Insertion sort: stable, and a permutation of its input. */
  function SortBy<T(==)>(s: seq<T>, le: (T, T) -> bool): (r: seq<T>)
    ensures |r| == |s|
    ensures multiset(r) == multiset(s)
  {
    if s == [] then []
    else
      assert s == [s[0]] + s[1..];
      Insert(s[0], SortBy(s[1..], le), le)
  }

  ghost predicate SortedBy<T>(s: seq<T>, le: (T, T) -> bool)
  {
    forall i, j :: 0 <= i < j < |s| ==> le(s[i], s[j])
  }

  /** `le` is a total preorder on the elements of `s`. */
  ghost predicate TotalPreorderOn<T>(s: seq<T>, le: (T, T) -> bool)
  {
    (forall a, b :: a in s && b in s ==> le(a, b) || le(b, a)) &&
    (forall a, b, c :: a in s && b in s && c in s && le(a, b) && le(b, c) ==> le(a, c))
  }

  lemma {:induction false} InsertSorted<T>(x: T, s: seq<T>, le: (T, T) -> bool)
    requires SortedBy(s, le)
    requires TotalPreorderOn([x] + s, le)
    ensures SortedBy(Insert(x, s, le), le)
  {
    if s != [] && !le(x, s[0]) {
      var t := s[1..];
      assert SortedBy(t, le);
      assert forall a :: a in [x] + t ==> a in [x] + s;
      InsertSorted(x, t, le);
      var r := Insert(x, t, le);
      assert le(s[0], x);
      assert forall a :: a in r ==> a in multiset(r);
      forall j | 0 <= j < |r|
        ensures le(s[0], r[j])
      {
        assert r[j] in multiset(t) + multiset{x};
        if r[j] != x {
          assert r[j] in t;
          assert le(s[0], r[j]);
        }
      }
    }
  }

  lemma {:induction false} SortBySorted<T>(s: seq<T>, le: (T, T) -> bool)
    requires TotalPreorderOn(s, le)
    ensures SortedBy(SortBy(s, le), le)
  {
    if s != [] {
      var t := s[1..];
      assert forall a :: a in t ==> a in s;
      SortBySorted(t, le);
      var u := SortBy(t, le);
      assert forall a :: a in u ==> a in multiset(u);
      assert forall a :: a in [s[0]] + u ==> a in s;
      InsertSorted(s[0], u, le);
    }
  }

  /** A comparator that calls every pair equal leaves the order untouched. */
  lemma {:induction false} SortByAllEqual<T>(s: seq<T>, le: (T, T) -> bool)
    requires forall a, b :: a in s && b in s ==> le(a, b)
    ensures SortBy(s, le) == s
  {
    if s != [] {
      SortByAllEqual(s[1..], le);
      assert [s[0]] + s[1..] == s;
    }
  }

  /** Sorting does not change a sum. */
  lemma {:induction false} SumRInsert<T>(x: T, s: seq<T>, le: (T, T) -> bool, f: T -> real)
    ensures SumR(Insert(x, s, le), f) == f(x) + SumR(s, f)
  {
    if s == [] || le(x, s[0]) {
      SumRCons(x, s, f);
    } else {
      SumRInsert(x, s[1..], le, f);
      SumRCons(s[0], Insert(x, s[1..], le), f);
      SumRCons(s[0], s[1..], f);
      assert [s[0]] + s[1..] == s;
    }
  }

  lemma {:induction false} SumRSortBy<T>(s: seq<T>, le: (T, T) -> bool, f: T -> real)
    ensures SumR(SortBy(s, le), f) == SumR(s, f)
  {
    if s != [] {
      SumRSortBy(s[1..], le, f);
      SumRInsert(s[0], SortBy(s[1..], le), le, f);
      SumRCons(s[0], s[1..], f);
      assert [s[0]] + s[1..] == s;
    }
  }

  lemma {:induction false} SumIInsert<T>(x: T, s: seq<T>, le: (T, T) -> bool, f: T -> int)
    ensures SumI(Insert(x, s, le), f) == f(x) + SumI(s, f)
  {
    if s == [] || le(x, s[0]) {
      SumICons(x, s, f);
    } else {
      SumIInsert(x, s[1..], le, f);
      SumICons(s[0], Insert(x, s[1..], le), f);
      SumICons(s[0], s[1..], f);
      assert [s[0]] + s[1..] == s;
    }
  }

  lemma {:induction false} SumISortBy<T>(s: seq<T>, le: (T, T) -> bool, f: T -> int)
    ensures SumI(SortBy(s, le), f) == SumI(s, f)
  {
    if s != [] {
      SumISortBy(s[1..], le, f);
      SumIInsert(s[0], SortBy(s[1..], le), le, f);
      SumICons(s[0], s[1..], f);
      assert [s[0]] + s[1..] == s;
    }
  }

  /** `.limit(n)`: the first `n` elements, or all of them. */
  function Take<T>(s: seq<T>, n: nat): (r: seq<T>)
    ensures |r| == if |s| <= n then |s| else n
    ensures forall i :: 0 <= i < |r| ==> r[i] == s[i]
  {
    if |s| <= n then s else s[..n]
  }

  /** In a sorted sequence, whatever is cut off by `Take` may follow everything kept. */
  lemma TakeDominates<T>(s: seq<T>, n: nat, le: (T, T) -> bool, y: T)
    requires SortedBy(s, le)
    requires y in s && y !in Take(s, n)
    ensures forall i :: 0 <= i < |Take(s, n)| ==> le(Take(s, n)[i], y)
  {
    var j :| 0 <= j < |s| && s[j] == y;
  }
}
