/**
 * The template tags of apps/templatetags/digital_tags.py that compute
 * something: the newest-first product list of a category and the price
 * rendered with its digits in groups of three.
 */
module DigitalTags {
  import opened Models

  /** `s[::-1]`. */
  function Reverse<T>(s: seq<T>): (r: seq<T>)
    ensures |r| == |s|
    ensures forall i :: 0 <= i < |s| ==> r[i] == s[|s| - 1 - i]
  {
    if s == [] then [] else Reverse(s[1..]) + [s[0]]
  }

  /** Reversing twice gives back the list. */
  lemma ReverseTwice<T>(s: seq<T>)
    ensures Reverse(Reverse(s)) == s
  {
  }

  /** `get_products`: the category's products, last in query order first. */
  function GetProducts(catalog: seq<Product>, category: CategoryId): (r: seq<Product>)
    ensures |r| == |ProductsInCategory(catalog, category)|
    ensures forall i :: 0 <= i < |r| ==>
      r[i] == ProductsInCategory(catalog, category)[|r| - 1 - i]
    ensures forall x :: x in r <==> x in catalog && x.category == category
  {
    var products := ProductsInCategory(catalog, category);
    var r := Reverse(products);
    assert forall x :: x in r <==> x in products by {
      forall x | x in products ensures x in r {
        var i :| 0 <= i < |products| && products[i] == x;
        assert r[|products| - 1 - i] == x;
      }
    }
    r
  }

  predicate IsDigit(c: char) {
    '0' <= c <= '9'
  }

  predicate AllDigits(s: string) {
    forall i :: 0 <= i < |s| ==> IsDigit(s[i])
  }

  function DigitChar(d: nat): (c: char)
    requires d < 10
    ensures IsDigit(c) && c as int - '0' as int == d
  {
    ('0' as int + d) as char
  }

  /** Python's `str` of a non-negative integer: its decimal digits, no leading zero. */
  function DecimalDigits(n: nat): (s: string)
    ensures |s| >= 1 && AllDigits(s)
    ensures s[0] == '0' ==> n == 0
    ensures n < 10 ==> |s| == 1
    ensures n < 100 ==> |s| <= 2
    ensures n < 1000 ==> |s| <= 3
  {
    if n < 10 then [DigitChar(n)] else DecimalDigits(n / 10) + [DigitChar(n % 10)]
  }

  /** The number a string of decimal digits denotes. */
  function DigitsValue(s: string): nat
    requires AllDigits(s)
  {
    if s == [] then 0 else DigitsValue(s[..|s| - 1]) * 10 + (s[|s| - 1] as int - '0' as int)
  }

  /** The decimal digits of `n` denote `n`. */
  lemma {:induction false} DecimalDigitsRoundTrip(n: nat)
    ensures DigitsValue(DecimalDigits(n)) == n
  {
    if n >= 10 {
      DecimalDigitsRoundTrip(n / 10);
      var s := DecimalDigits(n);
      assert s[..|s| - 1] == DecimalDigits(n / 10);
    }
  }

  /** Python's `str(n)`: a minus sign in front of the digits of a negative number. */
  function IntRepr(n: int): string {
    if n < 0 then "-" + DecimalDigits(-n) else DecimalDigits(n)
  }

  /** `sep` in front of every group of three digits counted from the right. */
  function Group(d: string, sep: char): (r: string)
    ensures |d| >= 1 ==> |r| >= 1 && r[0] == d[0]
    decreases |d|
  {
    if |d| <= 3 then d else Group(d[..|d| - 3], sep) + [sep] + d[|d| - 3..]
  }

  /** `f'{n:_}'`: the underscore grouping option of PEP 515 applied to an integer. */
  function FormatUnderscore(n: int): string {
    if n < 0 then "-" + Group(DecimalDigits(-n), '_') else Group(DecimalDigits(n), '_')
  }

  /** `s.replace(from, to)` for one-character strings. */
  function Replace(s: string, from: char, to: char): (r: string)
    ensures |r| == |s|
    ensures forall i :: 0 <= i < |s| ==> r[i] == (if s[i] == from then to else s[i])
  {
    if s == [] then [] else [if s[0] == from then to else s[0]] + Replace(s[1..], from, to)
  }

  /** `get_normal_price` on `int(price)`: grouped with underscores, which then become spaces. */
  function NormalPrice(n: int): (r: string)
    ensures |r| >= 1
    ensures r[0] == '-' <==> n < 0
  {
    Replace(FormatUnderscore(n), '_', ' ')
  }

  /** `s` with every occurrence of `c` deleted. */
  function Without(s: string, c: char): (r: string)
    ensures forall i :: 0 <= i < |r| ==> r[i] != c
  {
    if s == [] then [] else (if s[0] == c then [] else [s[0]]) + Without(s[1..], c)
  }

  lemma {:induction false} WithoutConcat(a: string, b: string, c: char)
    ensures Without(a + b, c) == Without(a, c) + Without(b, c)
  {
    if a != [] {
      assert (a + b)[1..] == a[1..] + b;
      WithoutConcat(a[1..], b, c);
    } else {
      assert a + b == b;
    }
  }

  lemma {:induction false} WithoutAbsent(s: string, c: char)
    requires forall i :: 0 <= i < |s| ==> s[i] != c
    ensures Without(s, c) == s
  {
    if s != [] {
      WithoutAbsent(s[1..], c);
    }
  }

  lemma GroupUnfold(d: string, sep: char)
    requires |d| > 3
    ensures Group(d, sep) == Group(d[..|d| - 3], sep) + [sep] + d[|d| - 3..]
  {
  }

  /** Deleting the separators from a grouped digit string gives back the digits. */
  lemma {:induction false} GroupThenWithout(d: string, sep: char)
    requires AllDigits(d) && !IsDigit(sep)
    ensures Without(Group(d, sep), sep) == d
    decreases |d|
  {
    if |d| <= 3 {
      WithoutAbsent(d, sep);
    } else {
      var head, tail := d[..|d| - 3], d[|d| - 3..];
      var g := Group(head, sep);
      GroupUnfold(d, sep);
      GroupThenWithout(head, sep);
      WithoutConcat(g + [sep], tail, sep);
      WithoutConcat(g, [sep], sep);
      assert Without([sep], sep) == [];
      WithoutAbsent(tail, sep);
      calc {
        Without(Group(d, sep), sep);
        Without(g + [sep] + tail, sep);
        Without(g, sep) + Without([sep], sep) + Without(tail, sep);
        head + tail;
        d;
      }
    }
  }

  lemma {:induction false} ReplaceConcat(a: string, b: string, from: char, to: char)
    ensures Replace(a + b, from, to) == Replace(a, from, to) + Replace(b, from, to)
  {
  }

  lemma ReplaceAbsent(s: string, from: char, to: char)
    requires forall i :: 0 <= i < |s| ==> s[i] != from
    ensures Replace(s, from, to) == s
  {
  }

  /** Turning the underscores of an underscore-grouped digit string into spaces groups it with spaces. */
  lemma {:induction false} ReplaceSeparator(d: string)
    requires AllDigits(d)
    ensures Replace(Group(d, '_'), '_', ' ') == Group(d, ' ')
    decreases |d|
  {
    if |d| <= 3 {
      ReplaceAbsent(d, '_', ' ');
    } else {
      var head, tail := d[..|d| - 3], d[|d| - 3..];
      ReplaceSeparator(head);
      ReplaceConcat(Group(head, '_') + ['_'], tail, '_', ' ');
      ReplaceConcat(Group(head, '_'), ['_'], '_', ' ');
      ReplaceAbsent(tail, '_', ' ');
    }
  }

  /** The price is the sign followed by the digits of |n| in space-separated groups. */
  lemma NormalPriceShape(n: int)
    ensures NormalPrice(n)
         == (if n < 0 then "-" + Group(DecimalDigits(-n), ' ') else Group(DecimalDigits(n), ' '))
  {
    var d := if n < 0 then DecimalDigits(-n) else DecimalDigits(n);
    ReplaceSeparator(d);
    if n < 0 {
      ReplaceConcat("-", Group(d, '_'), '_', ' ');
    }
  }

  /** Deleting the spaces from the rendered price gives the plain decimal representation. */
  lemma NormalPriceDigits(n: int)
    ensures Without(NormalPrice(n), ' ') == IntRepr(n)
  {
    NormalPriceShape(n);
    var d := if n < 0 then DecimalDigits(-n) else DecimalDigits(n);
    GroupThenWithout(d, ' ');
    if n < 0 {
      WithoutConcat("-", Group(d, ' '), ' ');
    }
  }

  /**
   * Digits in groups of three separated by single spaces: a space stands at
   * exactly the positions a multiple of four from the right end, every
   * other character is a digit, and the length is not a multiple of four.
   * So every group after the first has three digits and the first has one
   * to three.
   */
  ghost predicate ThousandsGrouped(r: string) {
    && |r| % 4 != 0
    && forall i :: 0 <= i < |r| ==> (r[i] == ' ' <==> (|r| - i) % 4 == 0) && (r[i] != ' ' ==> IsDigit(r[i]))
  }

  lemma {:induction false} GroupIsThousandsGrouped(d: string)
    requires |d| >= 1 && AllDigits(d)
    ensures ThousandsGrouped(Group(d, ' '))
    decreases |d|
  {
    if |d| > 3 {
      var head, tail := d[..|d| - 3], d[|d| - 3..];
      GroupIsThousandsGrouped(head);
      var g := Group(head, ' ');
      var r := Group(d, ' ');
      assert r == g + [' '] + tail;
      assert |r| == |g| + 4;
      forall i | 0 <= i < |r|
        ensures (r[i] == ' ' <==> (|r| - i) % 4 == 0) && (r[i] != ' ' ==> IsDigit(r[i]))
      {
        if i < |g| {
          assert r[i] == g[i];
          assert (|r| - i) % 4 == (|g| - i) % 4;
        } else if i > |g| {
          assert r[i] == tail[i - |g| - 1];
        }
      }
    }
  }

  /** The rendered price, after its sign, is in groups of three. */
  lemma NormalPriceGrouped(n: int)
    ensures ThousandsGrouped(if n < 0 then NormalPrice(n)[1..] else NormalPrice(n))
  {
    NormalPriceShape(n);
    var d := if n < 0 then DecimalDigits(-n) else DecimalDigits(n);
    GroupIsThousandsGrouped(d);
    if n < 0 {
      assert NormalPrice(n)[1..] == Group(d, ' ');
    }
  }

  /** Prices below a thousand in absolute value are rendered as their plain decimal representation. */
  lemma NormalPriceSmall(n: int)
    requires -1000 < n < 1000
    ensures NormalPrice(n) == IntRepr(n)
  {
    NormalPriceShape(n);
  }
}
