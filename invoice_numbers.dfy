/** The three invoice-number generators: "INV-<year>-NNNN" for issued invoices (the
    TypeScript controller), "INV-NNNNN" (the JavaScript controller) and "REC-NNNNN" for
    received invoices. Each picks the "last" number among those containing its pattern,
    reads one dash-separated field of it with parseInt, adds one and left-pads the result
    with zeros. */
module InvoiceNumbers {
  import opened Common
  import Records

  // ------------------------------------------------------------------
  // Number layout: dash-terminated head fields followed by the counter.
  // ------------------------------------------------------------------

  /** `heads[0] + "-" + heads[1] + "-" + ... + "-"`. */
  function Dashed(heads: seq<string>): (r: string)
    ensures |r| >= |heads|
  {
    if heads == [] then "" else heads[0] + "-" + Dashed(heads[1..])
  }

  predicate Dashless(heads: seq<string>)
  {
    forall k :: 0 <= k < |heads| ==> NoChar(heads[k], '-')
  }

  /** Splitting a number laid out as `Dashed(heads) + d` on '-' gives the heads, then `d`. */
  lemma {:induction false} SplitDashed(heads: seq<string>, d: string)
    requires Dashless(heads) && NoChar(d, '-')
    ensures Split(Dashed(heads) + d, '-') == heads + [d]
  {
    if heads == [] {
      assert Dashed(heads) + d == d;
      SplitNoSep(d, '-');
    } else {
      var rest := Dashed(heads[1..]) + d;
      assert Dashed(heads) + d == heads[0] + ['-'] + rest;
      SplitAfterField(heads[0], '-', rest);
      SplitDashed(heads[1..], d);
      assert heads == [heads[0]] + heads[1..];
    }
  }

  /** `s.split("-")[k]`, `None` standing for `undefined`. */
  function FieldAt(s: string, k: nat): (r: Option<string>)
    ensures r.Some? ==> NoChar(r.value, '-')
  {
    var parts := Split(s, '-');
    if k < |parts| then Some(parts[k]) else None
  }

  /** `parseInt(s.split("-")[k])`, `None` standing for `NaN`. */
  function Counter(s: string, k: nat): Option<nat>
  {
    match FieldAt(s, k)
    case None => None
    case Some(f) => ParseInt(f)
  }

  /** `(n + 1).toString().padStart(width, "0")` with `n = parseInt(field)`; a `NaN` counter
      prints as "NaN". */
  function Successor(n: Option<nat>, width: nat): (r: string)
    ensures |r| >= width
    ensures n.Some? ==> AllDigits(r) && ParseInt(r) == Some(n.value + 1)
  {
    match n
    case None => PadStart("NaN", width)
    case Some(v) => ParsePadded(v + 1, width); PadStart(NatToString(v + 1), width)
  }

  lemma DigitsDashless(s: string)
    requires AllDigits(s)
    ensures NoChar(s, '-')
  {
  }

  /** A numbering scheme: the head fields (whose dashed form is also the search pattern),
      the padding width and the number handed out when nothing matches. */
  datatype Scheme = Scheme(heads: seq<string>, width: nat, first: string)

  function Pattern(sc: Scheme): string { Dashed(sc.heads) }

  /** Invoice.controllers.tsx: "INV-<year>-", four digits, "INV-<year>-0001" first. */
  function YearlyScheme(year: nat): (sc: Scheme)
    ensures Dashless(sc.heads)
  {
    DigitsDashless(NatToString(year));
    Scheme(["INV", NatToString(year)], 4, Dashed(["INV", NatToString(year)]) + "0001")
  }

  lemma YearlyPattern(year: nat)
    ensures Pattern(YearlyScheme(year)) == "INV-" + NatToString(year) + "-"
  {
    var y := NatToString(year);
    assert ["INV", y][1..] == [y];
    assert [y][1..] == [];
    assert Dashed([y]) == y + "-" + "";
    assert Dashed(["INV", y]) == "INV" + "-" + Dashed([y]);
  }

  lemma SingleHeadPattern(h: string)
    ensures Dashed([h]) == h + "-"
  {
    assert [h][1..] == [];
    assert Dashed([h]) == h + "-" + "";
  }

  /** Invoice.controllers.jsx: "INV-", five digits, "INV-25201" first. */
  const IssuedScheme := Scheme(["INV"], 5, "INV-25201")

  /** recieved.controllers.jsx: "REC-", five digits, "REC-2899" first. */
  const ReceivedScheme := Scheme(["REC"], 5, "REC-2899")

  /** The number following `last` (or the scheme's first number when there is none). */
  function NextNumber(sc: Scheme, last: Option<string>): (r: string)
    ensures last.Some? ==> StartsWith(r, Pattern(sc))
  {
    match last
    case None => sc.first
    case Some(l) => Pattern(sc) + Successor(Counter(l, |sc.heads|), sc.width)
  }

  /** The next number continues the counter of the last one and is again matched by the
      scheme's pattern. */
  lemma NextNumberRoundTrip(sc: Scheme, last: string)
    requires Dashless(sc.heads)
    requires Counter(last, |sc.heads|).Some?
    ensures var r := NextNumber(sc, Some(last));
      Includes(r, Pattern(sc)) &&
      Counter(r, |sc.heads|) == Some(Counter(last, |sc.heads|).value + 1)
  {
    var d := Successor(Counter(last, |sc.heads|), sc.width);
    DigitsDashless(d);
    SplitDashed(sc.heads, d);
    var r := NextNumber(sc, Some(last));
    assert (sc.heads + [d])[|sc.heads|] == d;
    assert OccursAt(r, Pattern(sc), 0);
  }

  // ------------------------------------------------------------------
  // Choosing the last number.
  // ------------------------------------------------------------------

  function Matching(numbers: seq<string>, pattern: string): (r: seq<string>)
    ensures forall i :: 0 <= i < |r| ==> r[i] in numbers && Includes(r[i], pattern)
    ensures forall i :: 0 <= i < |numbers| && Includes(numbers[i], pattern) ==> numbers[i] in r
  {
    Filter(numbers, x => Includes(x, pattern))
  }

  /** The greatest string in code-point order (`sort({ invoiceNumber: -1 }).limit(1)`). */
  function StrMax(s: seq<string>): (r: string)
    requires |s| > 0
    ensures r in s
    ensures forall i :: 0 <= i < |s| ==> StrLe(s[i], r)
  {
    if |s| == 1 then
      StrLtIrreflexive(s[0]);
      s[0]
    else
      var m := StrMax(s[..|s| - 1]);
      var x := s[|s| - 1];
      if StrLt(m, x) then
        assert forall i :: 0 <= i < |s| - 1 ==> StrLe(s[i], x) by {
          forall i | 0 <= i < |s| - 1 ensures StrLe(s[i], x) {
            assert s[i] == s[..|s| - 1][i];
            if StrLt(x, s[i]) {
              StrLtTransitive(m, x, s[i]);
            }
          }
        }
        StrLtIrreflexive(x);
        x
      else
        assert forall i :: 0 <= i < |s| - 1 ==> s[i] == s[..|s| - 1][i];
        m
  }

  /** The string-greatest number containing the pattern, if any. */
  function LastByString(numbers: seq<string>, pattern: string): (r: Option<string>)
    ensures r.None? <==> forall i :: 0 <= i < |numbers| ==> !Includes(numbers[i], pattern)
    ensures r.Some? ==> r.value in numbers && Includes(r.value, pattern)
    ensures r.Some? ==> forall i :: 0 <= i < |numbers| && Includes(numbers[i], pattern) ==> StrLe(numbers[i], r.value)
  {
    var m := Matching(numbers, pattern);
    if m == [] then None
    else
      var r := StrMax(m);
      assert forall i :: 0 <= i < |numbers| && Includes(numbers[i], pattern) ==> StrLe(numbers[i], r) by {
        forall i | 0 <= i < |numbers| && Includes(numbers[i], pattern) ensures StrLe(numbers[i], r) {
          var j :| 0 <= j < |m| && m[j] == numbers[i];
        }
      }
      Some(r)
  }

  /** getNextInvoiceNumber of Invoice.controllers.tsx, given the current year and the stored
      invoice numbers. */
  function NextYearlyNumber(year: nat, numbers: seq<string>): (r: string)
    ensures StartsWith(r, "INV-" + NatToString(year) + "-")
  {
    var sc := YearlyScheme(year);
    YearlyPattern(year);
    assert (Pattern(sc) + "0001")[..|Pattern(sc)|] == Pattern(sc);
    NextNumber(sc, LastByString(numbers, Pattern(sc)))
  }

  /** getNextInvoiceNumber of Invoice.controllers.jsx. */
  function NextIssuedNumber(numbers: seq<string>): (r: string)
    ensures StartsWith(r, "INV-")
  {
    SingleHeadPattern("INV");
    assert Pattern(IssuedScheme) == "INV-";
    NextNumber(IssuedScheme, LastByString(numbers, Pattern(IssuedScheme)))
  }

  /** Entry `i` contains the pattern and no entry containing it was created later. */
  predicate NewestAt(invoices: seq<Records.ReceivedInvoice>, pattern: string, i: int)
    requires 0 <= i < |invoices|
  {
    Includes(invoices[i].invoiceNumber, pattern) &&
    forall j :: 0 <= j < |invoices| && Includes(invoices[j].invoiceNumber, pattern) ==> invoices[j].createdAt <= invoices[i].createdAt
  }

  /** The position of the newest received invoice whose number contains the pattern
      (`sort({ createdAt: -1 }).limit(1)`; the earliest such on ties). */
  function NewestIndex(invoices: seq<Records.ReceivedInvoice>, pattern: string): (r: Option<nat>)
    ensures r.None? <==> forall i :: 0 <= i < |invoices| ==> !Includes(invoices[i].invoiceNumber, pattern)
    ensures r.Some? ==> r.value < |invoices| && NewestAt(invoices, pattern, r.value)
  {
    if invoices == [] then None
    else
      var init := invoices[..|invoices| - 1];
      var m := NewestIndex(init, pattern);
      var x := invoices[|invoices| - 1];
      assert forall i :: 0 <= i < |invoices| - 1 ==> invoices[i] == init[i];
      if !Includes(x.invoiceNumber, pattern) then m
      else if m.None? || x.createdAt > init[m.value].createdAt then Some(|init|)
      else m
  }

  /** The number of the newest received invoice whose number contains the pattern. */
  function LastByCreation(invoices: seq<Records.ReceivedInvoice>, pattern: string): Option<string>
  {
    match NewestIndex(invoices, pattern)
    case None => None
    case Some(i) => Some(invoices[i].invoiceNumber)
  }

  /** getNextInvoiceNumber of recieved.controllers.jsx: the last number is the newest
      record's, not the greatest. */
  function NextReceivedNumber(invoices: seq<Records.ReceivedInvoice>): (r: string)
    ensures StartsWith(r, "REC-")
  {
    SingleHeadPattern("REC");
    assert Pattern(ReceivedScheme) == "REC-";
    NextNumber(ReceivedScheme, LastByCreation(invoices, Pattern(ReceivedScheme)))
  }

  // ------------------------------------------------------------------
  // What the generators promise.
  // ------------------------------------------------------------------

  /** A number laid out as `Dashed(heads) + d`, with `d` decimal digits, contains the
      pattern and its counter is the value of `d`. */
  lemma LaidOut(heads: seq<string>, d: string)
    requires Dashless(heads) && |d| > 0 && AllDigits(d)
    ensures Includes(Dashed(heads) + d, Dashed(heads))
    ensures Counter(Dashed(heads) + d, |heads|) == Some(DigitsValue(d))
  {
    DigitsDashless(d);
    SplitDashed(heads, d);
    assert (heads + [d])[|heads|] == d;
    assert OccursAt(Dashed(heads) + d, Dashed(heads), 0);
    DigitPrefixOfDigits(d);
  }

  /** The string-greatest matching number is the one the generator continues from. */
  lemma LastIs(numbers: seq<string>, pattern: string, i: nat)
    requires i < |numbers| && Includes(numbers[i], pattern)
    requires forall j :: 0 <= j < |numbers| && Includes(numbers[j], pattern) ==> StrLe(numbers[j], numbers[i])
    ensures LastByString(numbers, pattern) == Some(numbers[i])
  {
    var r := LastByString(numbers, pattern).value;
    var j :| 0 <= j < |numbers| && numbers[j] == r;
    StrLtTotal(numbers[i], r);
  }

  /** With no matching number each generator hands out its first number. */
  lemma FirstNumbers(year: nat, numbers: seq<string>, invoices: seq<Records.ReceivedInvoice>)
    ensures (forall i :: 0 <= i < |numbers| ==> !Includes(numbers[i], "INV-" + NatToString(year) + "-")) ==>
      NextYearlyNumber(year, numbers) == "INV-" + NatToString(year) + "-0001"
    ensures (forall i :: 0 <= i < |numbers| ==> !Includes(numbers[i], "INV-")) ==>
      NextIssuedNumber(numbers) == "INV-25201"
    ensures (forall i :: 0 <= i < |invoices| ==> !Includes(invoices[i].invoiceNumber, "REC-")) ==>
      NextReceivedNumber(invoices) == "REC-2899"
  {
    YearlyPattern(year);
    SingleHeadPattern("INV");
    SingleHeadPattern("REC");
    assert Pattern(IssuedScheme) == "INV-";
    assert Pattern(ReceivedScheme) == "REC-";
  }

  /** Otherwise the next yearly number is the year prefix followed by the string-greatest
      matching number's third field plus one, and it reads back as that count. */
  lemma YearlyIncrements(year: nat, numbers: seq<string>, i: nat)
    requires i < |numbers| && Includes(numbers[i], "INV-" + NatToString(year) + "-")
    requires forall j :: 0 <= j < |numbers| && Includes(numbers[j], "INV-" + NatToString(year) + "-") ==>
      StrLe(numbers[j], numbers[i])
    requires Counter(numbers[i], 2).Some?
    ensures var r := NextYearlyNumber(year, numbers);
      StartsWith(r, "INV-" + NatToString(year) + "-") &&
      Counter(r, 2) == Some(Counter(numbers[i], 2).value + 1)
  {
    var sc := YearlyScheme(year);
    YearlyPattern(year);
    LastIs(numbers, Pattern(sc), i);
    NextNumberRoundTrip(sc, numbers[i]);
  }

  /** The newest received invoice with a "REC-" number is the one the generator continues
      from. */
  lemma ReceivedIncrements(invoices: seq<Records.ReceivedInvoice>, i: nat)
    requires i < |invoices| && NewestAt(invoices, "REC-", i)
    requires forall j :: 0 <= j < |invoices| && NewestAt(invoices, "REC-", j) ==> j == i
    requires Counter(invoices[i].invoiceNumber, 1).Some?
    ensures var r := NextReceivedNumber(invoices);
      StartsWith(r, "REC-") &&
      Counter(r, 1) == Some(Counter(invoices[i].invoiceNumber, 1).value + 1)
  {
    SingleHeadPattern("REC");
    assert Pattern(ReceivedScheme) == "REC-";
    assert NewestIndex(invoices, "REC-") == Some(i);
    NextNumberRoundTrip(ReceivedScheme, invoices[i].invoiceNumber);
  }

  /** A single stored invoice numbered `<pattern><d>` is continued from `d`. */
  lemma SingleNext(sc: Scheme, p: string, inv: Records.ReceivedInvoice, d: string)
    requires Dashless(sc.heads) && p == Pattern(sc) && |d| > 0 && AllDigits(d)
    requires inv.invoiceNumber == p + d
    ensures NextNumber(sc, LastByCreation([inv], p)) == p + Successor(Some(DigitsValue(d)), sc.width)
  {
    LaidOut(sc.heads, d);
    OnlyIsNewest(inv, p);
  }

  lemma OnlyIsNewest(inv: Records.ReceivedInvoice, pattern: string)
    requires Includes(inv.invoiceNumber, pattern)
    ensures LastByCreation([inv], pattern) == Some(inv.invoiceNumber)
  {
    assert [inv][..0] == [];
  }

  // The decimal forms of the counters used in the examples, each in a small context.

  lemma Literals2899()
    ensures NatToString(2899) == "2899" && NatToString(2900) == "2900"
  {
    assert NatToString(28) == "28" && NatToString(29) == "29";
    assert NatToString(289) == "289" && NatToString(290) == "290";
  }

  lemma Literals9999()
    ensures NatToString(9999) == "9999" && NatToString(10000) == "10000" && NatToString(10001) == "10001"
  {
    assert NatToString(99) == "99" && NatToString(10) == "10";
    assert NatToString(999) == "999" && NatToString(100) == "100";
    assert NatToString(1000) == "1000";
  }

  lemma Literals99999()
    ensures NatToString(99999) == "99999" && NatToString(100000) == "100000"
  {
    Literals9999();
  }

  /** "REC-2899" is followed by "REC-02900": the first number has four digits, its
      successors five. */
  lemma ReceivedAfterFirst(p: string, inv: Records.ReceivedInvoice)
    requires p == "REC-" && inv.invoiceNumber == p + "2899"
    ensures NextReceivedNumber([inv]) == p + "02900"
  {
    SingleHeadPattern("REC");
    Literals2899();
    SingleNext(ReceivedScheme, p, inv, "2899");
  }

  // ------------------------------------------------------------------
  // The string maximum is not the numeric maximum once the counter outgrows
  // its padding: "INV-<year>-10000" sorts before "INV-<year>-9999".
  // ------------------------------------------------------------------

  lemma {:induction false} StrLtCommonPrefix(p: string, a: string, b: string)
    requires StrLt(a, b)
    ensures StrLt(p + a, p + b)
    decreases |p|
  {
    if p != [] {
      var x := p + a;
      var y := p + b;
      assert x != [] && y != [] && x[0] == y[0];
      assert x[1..] == p[1..] + a;
      assert y[1..] == p[1..] + b;
      StrLtCommonPrefix(p[1..], a, b);
      assert StrLt(x, y) == StrLt(x[1..], y[1..]);
    } else {
      assert p + a == a && p + b == b;
    }
  }

  /** Past the padding, the longer counter sorts first: `p + c1` < `p + c2`. */
  lemma LongerSortsFirst(p: string, c1: string, c2: string)
    requires StrLt(c1, c2)
    ensures StrLe(p + c1, p + c2) && !StrLe(p + c2, p + c1)
  {
    StrLtCommonPrefix(p, c1, c2);
    StrLtAsymmetric(p + c1, p + c2);
  }

  /** Once the counter `n + 1` outgrows the padding and sorts before `n`, the generator
      hands out the number after `n` again and again. */
  lemma RepeatsPastPadding(sc: Scheme, p: string, n: nat)
    requires Dashless(sc.heads) && p == Pattern(sc)
    requires |NatToString(n + 1)| >= sc.width
    requires StrLt(NatToString(n + 1), NatToString(n))
    ensures var a := p + NatToString(n);
      var b := p + NatToString(n + 1);
      NextNumber(sc, LastByString([a], p)) == b &&
      NextNumber(sc, LastByString([a, b], p)) == b
  {
    var a := p + NatToString(n);
    var b := p + NatToString(n + 1);
    LaidOut(sc.heads, NatToString(n));
    LaidOut(sc.heads, NatToString(n + 1));
    LongerSortsFirst(p, NatToString(n + 1), NatToString(n));
    StrLtIrreflexive(a);
    LastIs([a], p, 0);
    LastIs([a, b], p, 0);
  }

  /** As written: once "INV-<year>-9999" has been issued, the generator returns
      "INV-<year>-10000" for ever, so every later invoice repeats a stored, unique number. */
  lemma YearlyRepeatsAfter9999(year: nat)
    ensures var p := "INV-" + NatToString(year) + "-";
      NextYearlyNumber(year, [p + "9999"]) == p + "10000" &&
      NextYearlyNumber(year, [p + "9999", p + "10000"]) == p + "10000"
  {
    YearlyPattern(year);
    Literals9999();
    RepeatsPastPadding(YearlyScheme(year), Pattern(YearlyScheme(year)), 9999);
  }

  /** As written in Invoice.controllers.jsx: the same repeat after "INV-99999". */
  lemma IssuedRepeatsAfter99999(p: string)
    requires p == "INV-"
    ensures NextIssuedNumber([p + "99999"]) == p + "100000"
    ensures NextIssuedNumber([p + "99999", p + "100000"]) == p + "100000"
  {
    SingleHeadPattern("INV");
    Literals99999();
    RepeatsPastPadding(IssuedScheme, p, 99999);
  }

  // ------------------------------------------------------------------
  // Corrected: continue from the greatest counter, compared as a number.
  // ------------------------------------------------------------------

  /** `s` contains the scheme's pattern and carries a counter. */
  predicate CountedBy(s: string, sc: Scheme)
  {
    Includes(s, Pattern(sc)) && Counter(s, |sc.heads|).Some?
  }

  /** The greatest counter among the numbers containing the pattern. */
  function MaxCounter(numbers: seq<string>, sc: Scheme): (r: Option<nat>)
    ensures forall i :: 0 <= i < |numbers| && CountedBy(numbers[i], sc) ==>
      r.Some? && Counter(numbers[i], |sc.heads|).value <= r.value
    ensures r.Some? ==> exists i :: 0 <= i < |numbers| && CountedBy(numbers[i], sc) && Counter(numbers[i], |sc.heads|) == r
  {
    if numbers == [] then None
    else
      var init := numbers[..|numbers| - 1];
      var m := MaxCounter(init, sc);
      var x := numbers[|numbers| - 1];
      var c := if CountedBy(x, sc) then Counter(x, |sc.heads|) else None;
      assert forall i :: 0 <= i < |numbers| - 1 ==> numbers[i] == init[i];
      if c.None? then m
      else if m.None? || m.value < c.value then c
      else m
  }

  function NextNumberCorrected(sc: Scheme, numbers: seq<string>): (r: string)
    ensures (forall i :: 0 <= i < |numbers| ==> !CountedBy(numbers[i], sc)) ==> r == sc.first
  {
    match MaxCounter(numbers, sc)
    case None => sc.first
    case Some(n) => Pattern(sc) + Successor(Some(n), sc.width)
  }

  /** A scheme whose first number is matched by its own pattern and carries a counter. */
  predicate WellFormed(sc: Scheme)
  {
    Dashless(sc.heads) && CountedBy(sc.first, sc)
  }

  /** Corrected: the next number is never one already stored, and its counter exceeds
      every stored counter. */
  lemma CorrectedIsFresh(sc: Scheme, numbers: seq<string>)
    requires WellFormed(sc)
    ensures NextNumberCorrected(sc, numbers) !in numbers
    ensures var r := NextNumberCorrected(sc, numbers);
      CountedBy(r, sc) &&
      forall i :: 0 <= i < |numbers| && CountedBy(numbers[i], sc) ==>
        Counter(numbers[i], |sc.heads|).value < Counter(r, |sc.heads|).value
  {
    match MaxCounter(numbers, sc)
    case None =>
    case Some(n) =>
      var d := Successor(Some(n), sc.width);
      LaidOut(sc.heads, d);
      DigitPrefixOfDigits(d);
  }

  lemma YearlyWellFormed(year: nat)
    ensures WellFormed(YearlyScheme(year))
  {
    var y := YearlyScheme(year);
    LaidOut(y.heads, "0001");
  }

  lemma IssuedWellFormed()
    ensures WellFormed(IssuedScheme)
  {
    SingleHeadPattern("INV");
    LaidOut(IssuedScheme.heads, "25201");
    assert IssuedScheme.first == Dashed(IssuedScheme.heads) + "25201";
  }

  lemma ReceivedWellFormed()
    ensures WellFormed(ReceivedScheme)
  {
    SingleHeadPattern("REC");
    LaidOut(ReceivedScheme.heads, "2899");
    assert ReceivedScheme.first == Dashed(ReceivedScheme.heads) + "2899";
  }

  /** Corrected: the yearly counter goes on past 9999. */
  lemma CorrectedPastPadding(year: nat)
    ensures var p := "INV-" + NatToString(year) + "-";
      NextNumberCorrected(YearlyScheme(year), [p + "9999", p + "10000"]) == p + "10001"
  {
    var y := YearlyScheme(year);
    YearlyPattern(year);
    var p := Pattern(y);
    var a := p + "9999";
    var b := p + "10000";
    LaidOut(y.heads, "9999");
    LaidOut(y.heads, "10000");
    Literals9999();
    assert [a, b][..1] == [a];
    assert [a][..0] == [];
    assert MaxCounter([a], y) == Some(9999);
    assert MaxCounter([a, b], y) == Some(10000);
  }
}
