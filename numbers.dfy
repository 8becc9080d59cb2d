/**
 * Cleaning of the city table's comma-grouped counts (data_cleaning.py:28-31):
 * every ',' is deleted, the text is stripped, and what is left is parsed.
 * The parse is modelled on plain decimal digit strings, giving a `nat`.
 */
module Numbers {
  import opened Wrappers
  import opened Text

  predicate IsDigit(c: char) {
    '0' <= c <= '9'
  }

  predicate AllDigits(s: string) {
    forall i :: 0 <= i < |s| ==> IsDigit(s[i])
  }

  function DigitValue(c: char): (d: nat)
    requires IsDigit(c)
    ensures d < 10
  {
    (c as int) - ('0' as int)
  }

  function DigitChar(d: nat): (c: char)
    requires d < 10
    ensures IsDigit(c) && DigitValue(c) == d
  {
    ('0' as int + d) as char
  }

  /** The number a digit string denotes in base ten, most significant digit first. */
  function DigitsValue(s: string): nat
    requires AllDigits(s)
  {
    if s == [] then 0 else DigitsValue(s[..|s| - 1]) * 10 + DigitValue(s[|s| - 1])
  }

  /**
   * The numeric conversion applied to a cleaned field. Empty text and text
   * holding anything but digits are rejected; the error carries the text.
   */
  function ParseNat(s: string): (r: Result<nat, string>)
    ensures r.Success? <==> s != [] && AllDigits(s)
    ensures r.Success? ==> r.value == DigitsValue(s)
    ensures r.Failure? ==> r.error == s
  {
    if s != [] && AllDigits(s) then Success(DigitsValue(s)) else Failure(s)
  }

  /**
   * `float(x.replace(',', '').strip())` on one field of the population or
   * users column. A rejected field reports its text as cleaned: the field
   * with its commas deleted and the whitespace around it removed.
   */
  function CleanNumber(s: string): (r: Result<nat, string>)
    ensures r.Failure? ==> Stripped(r.error) && ',' !in r.error
    ensures r.Failure? ==> exists a, b :: AllSpace(a) && AllSpace(b) && RemoveAll(s, ',') == a + r.error + b
  {
    StripWitness(RemoveAll(s, ','));
    var t := Strip(RemoveAll(s, ','));
    assert ',' !in t by {
      var u := RemoveAll(s, ',');
      var lo := SkipSpace(u, 0);
      assert t == u[lo..lo + |t|];
    }
    ParseNat(t)
  }

  /**
   * A field is accepted with value `n` exactly when, once its commas are
   * deleted, it is a non-empty digit string denoting `n` with nothing but
   * whitespace around it.
   */
  lemma CleanNumberAccepts(s: string, n: nat)
    ensures CleanNumber(s) == Success(n) <==>
      exists a, d, b :: AllSpace(a) && AllSpace(b) && d != [] && AllDigits(d)
        && RemoveAll(s, ',') == a + d + b && DigitsValue(d) == n
  {
    var u := RemoveAll(s, ',');
    if CleanNumber(s) == Success(n) {
      StripWitness(u);
      var a, b :| AllSpace(a) && AllSpace(b) && u == a + Strip(u) + b;
      var d := Strip(u);
      assert AllSpace(a) && AllSpace(b) && d != [] && AllDigits(d) && u == a + d + b && DigitsValue(d) == n;
    }
    if exists a, d, b :: AllSpace(a) && AllSpace(b) && d != [] && AllDigits(d) && u == a + d + b && DigitsValue(d) == n {
      var a, d, b :| AllSpace(a) && AllSpace(b) && d != [] && AllDigits(d) && u == a + d + b && DigitsValue(d) == n;
      DigitsStripped(d);
      StripPadded(a, d, b);
    }
  }

  /**
   * Converting a whole column, as `.apply` does: the converted values in
   * order, or the error of the first field that does not convert.
   */
  function ParseColumn(texts: seq<string>): (r: Result<seq<nat>, string>)
    ensures r.Success? <==> forall i :: 0 <= i < |texts| ==> CleanNumber(texts[i]).Success?
    ensures r.Success? ==> (|r.value| == |texts|
      && forall i :: 0 <= i < |texts| ==> r.value[i] == CleanNumber(texts[i]).value)
    ensures r.Failure? ==>
      exists i :: (0 <= i < |texts| && CleanNumber(texts[i]) == Failure(r.error)
        && forall j :: 0 <= j < i ==> CleanNumber(texts[j]).Success?)
  {
    var cleaned := seq(|texts|, i requires 0 <= i < |texts| => CleanNumber(texts[i]));
    assert forall i :: 0 <= i < |texts| ==> cleaned[i] == CleanNumber(texts[i]);
    Collect(cleaned)
  }

  // ---------------------------------------------------------------------
  // The inverse direction: rendering counts the way the city table stores them.

  /** Decimal rendering of `n` without leading zeros. */
  function Show(n: nat): (s: string)
    ensures s != [] && AllDigits(s) && ',' !in s
  {
    if n < 10 then [DigitChar(n)] else Show(n / 10) + [DigitChar(n % 10)]
  }

  /** Exactly three digits, zero-padded: one group after a thousands separator. */
  function Group3(n: nat): (s: string)
    requires n < 1000
    ensures |s| == 3 && AllDigits(s) && ',' !in s
  {
    [DigitChar(n / 100), DigitChar(n / 10 % 10), DigitChar(n % 10)]
  }

  /** `n` with a ',' between every group of three digits, as in "1,234,567". */
  function Grouped(n: nat): (s: string)
    ensures s != []
  {
    if n < 1000 then Show(n) else Grouped(n / 1000) + [','] + Group3(n % 1000)
  }

  lemma {:induction false} DigitsValueSnoc(s: string, c: char)
    requires AllDigits(s) && IsDigit(c)
    ensures AllDigits(s + [c]) && DigitsValue(s + [c]) == DigitsValue(s) * 10 + DigitValue(c)
  {
    assert (s + [c])[..|s + [c]| - 1] == s;
  }

  /** Parsing undoes rendering. */
  lemma {:induction false} ShowValue(n: nat)
    ensures DigitsValue(Show(n)) == n
  {
    if n >= 10 {
      ShowValue(n / 10);
      DigitsValueSnoc(Show(n / 10), DigitChar(n % 10));
    } else {
      assert Show(n)[..0] == [];
    }
  }

  lemma {:induction false} DigitsValueGroup3(s: string, n: nat)
    requires AllDigits(s) && n < 1000
    ensures AllDigits(s + Group3(n)) && DigitsValue(s + Group3(n)) == DigitsValue(s) * 1000 + n
  {
    var g := Group3(n);
    DigitsValueSnoc(s, g[0]);
    DigitsValueSnoc(s + [g[0]], g[1]);
    DigitsValueSnoc(s + [g[0]] + [g[1]], g[2]);
    assert s + [g[0]] + [g[1]] + [g[2]] == s + g;
  }

  /** Deleting the separators of a grouped rendering gives back the digits of `n`. */
  lemma {:induction false} UngroupedDigits(n: nat)
    ensures RemoveAll(Grouped(n), ',') != []
    ensures AllDigits(RemoveAll(Grouped(n), ','))
    ensures DigitsValue(RemoveAll(Grouped(n), ',')) == n
  {
    if n < 1000 {
      ShowValue(n);
    } else {
      UngroupedDigits(n / 1000);
      var d0 := RemoveAll(Grouped(n / 1000), ',');
      var g := Group3(n % 1000);
      assert Grouped(n) == Grouped(n / 1000) + [','] + g;
      UngroupStep(Grouped(n / 1000), g);
      DigitsValueGroup3(d0, n % 1000);
    }
  }

  /** A digit string has no whitespace at either end. */
  lemma DigitsStripped(d: string)
    requires AllDigits(d)
    ensures Stripped(d)
  {
    if d != [] {
      assert IsDigit(d[0]) && IsDigit(d[|d| - 1]);
    }
  }

  lemma UngroupStep(s: string, g: string)
    requires ',' !in g
    ensures RemoveAll(s + [','] + g, ',') == RemoveAll(s, ',') + g
  {
    RemoveAllConcat(s + [','], g, ',');
    RemoveTrailingComma(s);
  }

  lemma RemoveTrailingComma(s: string)
    ensures RemoveAll(s + [','], ',') == RemoveAll(s, ',')
  {
    RemoveAllConcat(s, [','], ',');
    assert RemoveAll([','], ',') == [];
  }

  /**
   * Round trip of the cleaning step: a count written with thousands
   * separators and any surrounding whitespace is read back as that count.
   */
  lemma CleanGrouped(a: string, n: nat, b: string)
    requires AllSpace(a) && AllSpace(b)
    ensures CleanNumber(a + Grouped(n) + b) == Success(n)
  {
    UngroupedDigits(n);
    var d := RemoveAll(Grouped(n), ',');
    DigitsStripped(d);
    AllSpaceNoComma(a);
    AllSpaceNoComma(b);
    RemoveAllConcat(a + Grouped(n), b, ',');
    RemoveAllConcat(a, Grouped(n), ',');
    StripPadded(a, d, b);
  }

  lemma AllSpaceNoComma(s: string)
    requires AllSpace(s)
    ensures RemoveAll(s, ',') == s
  {
    assert !IsSpace(',');
  }

  /** The population field "1,234,567 " is read as 1234567. */
  lemma CleanExample()
    ensures CleanNumber("1,234,567 ") == Success(1234567)
  {
    GroupedExample();
    assert "1,234,567 " == [] + Grouped(1234567) + " ";
    CleanGrouped([], 1234567, " ");
  }

  lemma GroupedExample()
    ensures Grouped(1234567) == "1,234,567"
  {
    assert Group3(234) == "234";
    assert Group3(567) == "567";
    assert Grouped(1) == "1";
    assert Grouped(1234) == "1" + [','] + "234";
    assert Grouped(1234567) == "1,234" + [','] + "567";
  }

  /**
   * Whitespace left between digits once the commas are gone is not
   * removed by `strip()`: a field such as "1, 234" is rejected.
   */
  lemma CleanRejectsInnerSpace(x: string, w: string, y: string)
    requires x != [] && AllDigits(x) && y != [] && AllDigits(y)
    requires w != [] && AllSpace(w)
    ensures CleanNumber(x + [','] + w + y).Failure?
  {
    var t := x + w + y;
    CommaDropped(x, w, y);
    InnerSpaceKept(x, w, y);
    assert !AllDigits(t) by {
      assert t[|x|] == w[0];
    }
  }

  lemma CommaDropped(x: string, w: string, y: string)
    requires AllDigits(x) && AllDigits(y) && AllSpace(w)
    ensures RemoveAll(x + [','] + w + y, ',') == x + w + y
  {
    assert ',' !in x && ',' !in y && ',' !in w by {
      assert !IsDigit(',') && !IsSpace(',');
    }
    RemoveAllConcat(x + [','] + w, y, ',');
    UngroupStep(x, w);
  }

  lemma InnerSpaceKept(x: string, w: string, y: string)
    requires x != [] && AllDigits(x) && y != [] && AllDigits(y)
    ensures Strip(x + w + y) == x + w + y
  {
    var t := x + w + y;
    assert t[0] == x[0] && t[|t| - 1] == y[|y| - 1];
    StripPadded([], t, []);
    assert [] + t + [] == t;
  }
}
