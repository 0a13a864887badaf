/** The two selectors offered to the user: one option per distinct schedule (`Graphic`) in
    the table, and the twelve months. */
module Dropdowns {
  import opened Dataset
  import opened Months

  /** A dropdown entry: the caption shown (`label`) and the value passed to `update_graph`. */
  datatype DropdownOption = DropdownOption(caption: string, value: int)

  const GRAPHIC_LABEL_PREFIX: string := "Выполнение плана по изделию "

  /** The month preselected in the month dropdown (September). */
  const DEFAULT_MONTH: int := 9

  /** The position of the first occurrence of `x` in `s`. */
  function FirstIndex(s: seq<int>, x: int): (i: nat)
    requires x in s
    ensures i < |s| && s[i] == x
    ensures forall j :: 0 <= j < i ==> s[j] != x
  {
    if s[0] == x then 0 else 1 + FirstIndex(s[1..], x)
  }

  /** pandas `Series.unique()`: each value once, in order of first appearance. */
  function Unique(s: seq<int>): (r: seq<int>)
    ensures forall x :: x in r <==> x in s
    ensures forall i, j :: 0 <= i < j < |r| ==> r[i] != r[j]
    decreases |s|
  {
    if s == [] then []
    else
      var u := Unique(s[..|s| - 1]);
      if s[|s| - 1] in u then u else u + [s[|s| - 1]]
  }

  /** The distinct values of `Unique(s)` are listed by increasing first appearance in `s`. */
  lemma {:induction false} UniqueFirstAppearance(s: seq<int>)
    ensures forall i, j :: 0 <= i < j < |Unique(s)| ==>
      FirstIndex(s, Unique(s)[i]) < FirstIndex(s, Unique(s)[j])
    decreases |s|
  {
    if s != [] {
      var init, last := s[..|s| - 1], s[|s| - 1];
      var u := Unique(init);
      UniqueFirstAppearance(init);
      forall x | x in init
        ensures FirstIndex(s, x) == FirstIndex(init, x)
      {
        FirstIndexOfPrefix(s, |s| - 1, x);
      }
      if last !in u {
        assert last !in init;
        assert FirstIndex(s, last) == |s| - 1;
      }
    }
  }

  /** A value that occurs in a prefix is first found inside that prefix. */
  lemma FirstIndexOfPrefix(s: seq<int>, n: nat, x: int)
    requires n <= |s| && x in s[..n]
    ensures FirstIndex(s, x) == FirstIndex(s[..n], x)
  {
    var i, j := FirstIndex(s, x), FirstIndex(s[..n], x);
    assert s[j] == x && i <= j;
    assert s[..n][i] == s[i];
  }

  /** The decimal digits of a natural number, most significant first, no leading zeros. */
  function NatDigits(n: nat): (r: string)
    ensures |r| >= 1
    ensures forall i :: 0 <= i < |r| ==> '0' <= r[i] <= '9'
    ensures n > 0 ==> r[0] != '0'
    ensures n == 0 ==> r == "0"
    decreases n
  {
    if n < 10 then [DigitChar(n)] else NatDigits(n / 10) + [DigitChar(n % 10)]
  }

  function DigitChar(d: nat): (c: char)
    requires d < 10
    ensures '0' <= c <= '9'
  {
    (('0' as int) + d) as char
  }

  /** Python `str(n)` of an integer: an optional minus sign, then decimal digits. */
  function IntToDecimal(n: int): (r: string)
    ensures |r| >= 1
    ensures (n < 0) <==> r[0] == '-'
    ensures n < 0 ==> |r| >= 2
    ensures forall i :: (if n < 0 then 1 else 0) <= i < |r| ==> '0' <= r[i] <= '9'
    ensures n != 0 ==> r[if n < 0 then 1 else 0] != '0'
    ensures n == 0 ==> r == "0"
  {
    if n < 0 then "-" + NatDigits(-n) else NatDigits(n)
  }

  /** The value of a string of decimal digits. */
  function ParseNat(s: string): nat
  {
    if s == [] then 0
    else ParseNat(s[..|s| - 1]) * 10 + (if '0' <= s[|s| - 1] <= '9' then (s[|s| - 1] as int) - ('0' as int) else 0)
  }

  /** The value of an optionally signed decimal string. */
  function ParseInt(s: string): int
  {
    if |s| > 0 && s[0] == '-' then -(ParseNat(s[1..]) as int) else ParseNat(s)
  }

  lemma {:induction false} NatDigitsRoundTrip(n: nat)
    ensures ParseNat(NatDigits(n)) == n
    decreases n
  {
    if n >= 10 {
      NatDigitsRoundTrip(n / 10);
      var r := NatDigits(n);
      assert r[..|r| - 1] == NatDigits(n / 10);
    }
  }

  /** `str(n)` loses nothing: reading the label's number back gives `n`. */
  lemma IntToDecimalRoundTrip(n: int)
    ensures ParseInt(IntToDecimal(n)) == n
  {
    if n < 0 {
      NatDigitsRoundTrip(-n);
      assert IntToDecimal(n)[1..] == NatDigits(-n);
    } else {
      NatDigitsRoundTrip(n);
    }
  }

  /** f'Выполнение плана по изделию {str(g)}'. */
  function GraphicLabel(g: int): string
  {
    GRAPHIC_LABEL_PREFIX + IntToDecimal(g)
  }

  /** The `Graphic` column of the table. */
  function GraphicColumn(data: seq<Record>): seq<int>
  {
    seq(|data|, i requires 0 <= i < |data| => data[i].graphic)
  }

  /** The options of the graphic dropdown. */
  function GraphicOptions(data: seq<Record>): (opts: seq<DropdownOption>)
    ensures forall i, j :: 0 <= i < j < |opts| ==> opts[i].value != opts[j].value
  {
    var u := Unique(GraphicColumn(data));
    seq(|u|, i requires 0 <= i < |u| => DropdownOption(GraphicLabel(u[i]), u[i]))
  }

  /** One option per graphic of the table and no other: every record's graphic is offered, and
      every option's value is some record's graphic. */
  lemma GraphicOptionsCover(data: seq<Record>)
    ensures var opts := GraphicOptions(data);
      && (forall rec :: rec in data ==> exists i :: 0 <= i < |opts| && opts[i].value == rec.graphic)
      && (forall i :: 0 <= i < |opts| ==> exists k :: 0 <= k < |data| && data[k].graphic == opts[i].value)
  {
    var col := GraphicColumn(data);
    var u, opts := Unique(col), GraphicOptions(data);
    forall rec | rec in data
      ensures exists i :: 0 <= i < |opts| && opts[i].value == rec.graphic
    {
      var k :| 0 <= k < |data| && data[k] == rec;
      assert col[k] == rec.graphic;
      assert rec.graphic in col;
      assert rec.graphic in u;
      var i :| 0 <= i < |u| && u[i] == rec.graphic;
      assert opts[i].value == rec.graphic;
    }
    forall i | 0 <= i < |opts|
      ensures exists k :: 0 <= k < |data| && data[k].graphic == opts[i].value
    {
      assert u[i] in col;
      var k :| 0 <= k < |col| && col[k] == u[i];
      assert data[k].graphic == opts[i].value;
    }
  }

  /** No graphic is offered twice, the options follow the order in which the graphics first
      appear in the table, and each is captioned with its number. */
  lemma GraphicOptionsOrder(data: seq<Record>)
    ensures var opts, col := GraphicOptions(data), GraphicColumn(data);
      && (forall i, j :: 0 <= i < j < |opts| ==> opts[i].value != opts[j].value)
      && (forall i, j :: 0 <= i < j < |opts| ==>
            FirstIndex(col, opts[i].value) < FirstIndex(col, opts[j].value))
      && (forall i :: 0 <= i < |opts| ==>
            opts[i].caption == "Выполнение плана по изделию " + IntToDecimal(opts[i].value))
  {
    var col := GraphicColumn(data);
    UniqueFirstAppearance(col);
  }

  /** The options of the month dropdown: `MONTHS[i - 1]` labelling `i` for `i` in `range(1, 13)`. */
  function MonthOptions(): (opts: seq<DropdownOption>)
    ensures |opts| == 12
    ensures forall k :: 0 <= k < 12 ==> opts[k].value == k + 1
  {
    seq(12, k requires 0 <= k < 12 => var i := k + 1; DropdownOption(MONTHS[i - 1], i))
  }

  /** The months 1..12 in order, each labelled with its name, so that every month the dropdown
      offers is one `update_graph` can look up; the default, 9, is offered as September. */
  lemma MonthOptionsSpec()
    ensures var opts := MonthOptions();
      && |opts| == 12
      && (forall k :: 0 <= k < 12 ==> opts[k].value == k + 1)
      && (forall k :: 0 <= k < 12 ==> MonthName(opts[k].value).Ok? && MonthName(opts[k].value).value == opts[k].caption)
      && opts[DEFAULT_MONTH - 1] == DropdownOption("Сентябрь", DEFAULT_MONTH)
  {
  }
}
