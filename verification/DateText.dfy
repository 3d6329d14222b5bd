/** Dates and idempotency keys as text. The scheduler compares dates as strings
    and names each run by a string key, so both must be faithful. */
module DateText {
  import opened Common
  import opened Calendar

  function Digit(k: int): (c: char)
    requires 0 <= k <= 9
    ensures IsDigit(c) && DigitValue(c) == k
  {
    '0' + k as char
  }

  predicate IsDigit(c: char) {
    '0' <= c <= '9'
  }

  function DigitValue(c: char): int
    requires IsDigit(c)
  {
    c as int - '0' as int
  }

  predicate AllDigits(s: string) {
    forall i :: 0 <= i < |s| ==> IsDigit(s[i])
  }

  /** Decimal numeral without leading zeros, as %d prints it. */
  function Decimal(n: nat): (s: string)
    ensures |s| > 0 && AllDigits(s) && Value(s) == n
  {
    if n < 10 then [Digit(n)] else Decimal(n / 10) + [Digit(n % 10)]
  }

  function Value(s: string): nat
    requires AllDigits(s)
  {
    if s == "" then 0 else 10 * Value(s[..|s| - 1]) + DigitValue(s[|s| - 1])
  }

  function Pow10(w: nat): nat {
    if w == 0 then 1 else 10 * Pow10(w - 1)
  }

  /** Zero-padded numeral of exactly w digits. */
  function Padded(n: nat, w: nat): (s: string)
    requires n < Pow10(w)
    ensures |s| == w && AllDigits(s)
    decreases w
  {
    if w == 0 then "" else Padded(n / 10, w - 1) + [Digit(n % 10)]
  }

  lemma {:induction false} PaddedValue(n: nat, w: nat)
    requires n < Pow10(w)
    ensures Value(Padded(n, w)) == n
    decreases w
  {
    if w > 0 {
      var s := Padded(n, w);
      PaddedValue(n / 10, w - 1);
      assert s[..w - 1] == Padded(n / 10, w - 1) && s[w - 1] == Digit(n % 10);
    }
  }

  lemma Widths()
    ensures Pow10(2) == 100 && Pow10(4) == 10000
  {
    assert Pow10(1) == 10;
    assert Pow10(3) == 10 * Pow10(2);
  }

  function YearText(y: nat): (s: string)
    ensures |s| > 0 && AllDigits(s)
  {
    Widths();
    if y < 10000 then Padded(y, 4) else Decimal(y)
  }

  /** YYYY-MM, as to_char and Go's layouts print it. */
  function FormatMonth(y: nat, m: nat): string
    requires m < 100
  {
    Widths();
    YearText(y) + "-" + Padded(m, 2)
  }

  /** YYYY-MM-DD; years past 9999 widen the first field. */
  function FormatDate(d: Date): string
    requires Valid(d)
  {
    Widths();
    FormatMonth(d.year, d.month) + "-" + Padded(d.day, 2)
  }

  /** time.Parse("2006-01-02", s): fixed-width fields, calendar-checked. */
  function ParseDate(s: string): (r: Option<Date>)
    ensures r.Some? ==> Valid(r.value)
  {
    if |s| == 10 && AllDigits(s[..4]) && s[4] == '-' && AllDigits(s[5..7]) && s[7] == '-' && AllDigits(s[8..]) then
      var d := Date(Value(s[..4]), Value(s[5..7]), Value(s[8..]));
      if Valid(d) then Some(d) else None
    else None
  }

  /** Formatting a four-digit-year date and parsing the text returns the date. */
  lemma FormatParse(d: Date)
    requires Valid(d) && d.year <= 9999
    ensures |FormatDate(d)| == 10 && ParseDate(FormatDate(d)) == Some(d)
  {
    Widths();
    var s := FormatDate(d);
    var y, m, k := Padded(d.year, 4), Padded(d.month, 2), Padded(d.day, 2);
    assert s[..4] == y;
    assert s[5..7] == m;
    assert s[8..] == k;
    PaddedValue(d.year, 4);
    PaddedValue(d.month, 2);
    PaddedValue(d.day, 2);
  }

  /** A formatted date can be parsed back exactly when its year has four digits. */
  lemma ParsesWithFourDigits(d: Date)
    requires Valid(d)
    ensures ParseDate(FormatDate(d)) == if d.year <= 9999 then Some(d) else None
  {
    if d.year <= 9999 {
      FormatParse(d);
    } else {
      DateSplits(d);
      YearIsPadded(d.year);
    }
  }

  lemma {:induction false} PaddedOfValue(s: string)
    requires AllDigits(s)
    ensures Value(s) < Pow10(|s|) && Padded(Value(s), |s|) == s
  {
    if s != "" {
      var init, c := s[..|s| - 1], s[|s| - 1];
      PaddedOfValue(init);
      assert Value(s) / 10 == Value(init) && Value(s) % 10 == DigitValue(c);
      assert s == init + [c];
    }
  }

  /** The only texts that parse are formatted four-digit-year dates. */
  lemma ParseFormat(s: string)
    requires ParseDate(s).Some?
    ensures ParseDate(s).value.year <= 9999 && FormatDate(ParseDate(s).value) == s
  {
    Widths();
    PaddedOfValue(s[..4]);
    PaddedOfValue(s[5..7]);
    PaddedOfValue(s[8..]);
    assert s == s[..4] + "-" + s[5..7] + "-" + s[8..];
  }

  /** Byte-wise string order, as Go's > on strings. */
  predicate LexLess(a: string, b: string) {
    if b == "" then false
    else if a == "" then true
    else a[0] < b[0] || (a[0] == b[0] && LexLess(a[1..], b[1..]))
  }

  /** Equal-length prefixes are compared first. */
  lemma {:induction false} LexByPrefix(p: string, q: string, s: string, t: string)
    requires |p| == |q|
    ensures LexLess(p + s, q + t) <==> LexLess(p, q) || (p == q && LexLess(s, t))
  {
    if p == "" {
      assert p + s == s && q + t == t;
    } else {
      LexByPrefix(p[1..], q[1..], s, t);
      assert (p + s)[1..] == p[1..] + s && (q + t)[1..] == q[1..] + t;
      assert p == q <==> p[0] == q[0] && p[1..] == q[1..];
    }
  }

  lemma SplitOrder(a: nat, b: nat)
    ensures a < b <==> a / 10 < b / 10 || (a / 10 == b / 10 && a % 10 < b % 10)
  {}

  lemma LastDigit(x: string, y: string, j: int, k: int)
    requires |x| == |y| && 0 <= j <= 9 && 0 <= k <= 9
    ensures LexLess(x + [Digit(j)], y + [Digit(k)]) <==> LexLess(x, y) || (x == y && j < k)
  {
    LexOfDigits(j, k);
    LexByPrefix(x, y, [Digit(j)], [Digit(k)]);
  }

  lemma PaddedInjective(a: nat, b: nat, w: nat)
    requires a < Pow10(w) && b < Pow10(w)
    ensures Padded(a, w) == Padded(b, w) <==> a == b
  {
    PaddedValue(a, w);
    PaddedValue(b, w);
  }

  lemma {:induction false} PaddedOrder(a: nat, b: nat, w: nat)
    requires a < Pow10(w) && b < Pow10(w)
    ensures LexLess(Padded(a, w), Padded(b, w)) <==> a < b
    ensures Padded(a, w) == Padded(b, w) <==> a == b
    decreases w
  {
    PaddedInjective(a, b, w);
    if w > 0 {
      SplitOrder(a, b);
      PaddedOrder(a / 10, b / 10, w - 1);
      LastDigit(Padded(a / 10, w - 1), Padded(b / 10, w - 1), a % 10, b % 10);
    }
  }

  lemma LexOfDigits(j: int, k: int)
    requires 0 <= j <= 9 && 0 <= k <= 9
    ensures LexLess([Digit(j)], [Digit(k)]) <==> j < k
  {
    assert Digit(j) < Digit(k) <==> j < k;
    assert LexLess([Digit(j)][1..], [Digit(k)][1..]) == false;
  }

  /** Two dates compare as text field by field: month text, then day. */
  lemma LastField(p: string, q: string, j: nat, k: nat)
    requires |p| == |q| && j < 100 && k < 100
    ensures Pow10(2) == 100
    ensures LexLess(p + "-" + Padded(j, 2), q + "-" + Padded(k, 2)) <==> LexLess(p, q) || (p == q && j < k)
    ensures p + "-" + Padded(j, 2) == q + "-" + Padded(k, 2) <==> p == q && j == k
  {
    Widths();
    PaddedOrder(j, k, 2);
    var s, t := Padded(j, 2), Padded(k, 2);
    LexByPrefix("-", "-", s, t);
    LexByPrefix(p, q, "-" + s, "-" + t);
    assert p + "-" + s == p + ("-" + s) && q + "-" + t == q + ("-" + t);
    assert (p + "-" + s)[..|p|] == p && (q + "-" + t)[..|q|] == q;
    assert (p + "-" + s)[|p| + 1..] == s && (q + "-" + t)[|q| + 1..] == t;
  }

  // ---- how the text of dates compares ----

  /** The number left when the last k digits are dropped. */
  function Leading(n: nat, k: nat): nat {
    if k == 0 then n else Leading(n / 10, k - 1)
  }

  /** Dropping digits divides by a power of ten. */
  lemma {:induction false} LeadingIsQuotient(n: nat, k: nat, q: nat)
    ensures Leading(n, k) == q <==> q * Pow10(k) <= n < (q + 1) * Pow10(k)
    decreases k
  {
    if k > 0 {
      LeadingIsQuotient(n / 10, k - 1, q);
      TimesTen(q, Pow10(k - 1));
      TimesTen(q + 1, Pow10(k - 1));
      TenFold(n, q * Pow10(k - 1), (q + 1) * Pow10(k - 1));
    }
  }

  lemma TimesTen(q: int, p: int)
    ensures q * (10 * p) == 10 * (q * p)
  {}

  lemma TenFold(n: int, low: int, high: int)
    ensures low <= n / 10 < high <==> 10 * low <= n < 10 * high
  {}

  lemma PrefixOfPadded(n: nat, w: nat, m: nat)
    requires 0 < w && m < w && n < Pow10(w)
    ensures n / 10 < Pow10(w - 1) && Padded(n, w)[..m] == Padded(n / 10, w - 1)[..m]
  {
    assert Padded(n, w) == Padded(n / 10, w - 1) + [Digit(n % 10)];
  }

  lemma {:induction false} PaddedPrefix(n: nat, w: nat, k: nat, q: nat)
    requires k <= w && n < Pow10(w) && q == Leading(n, k)
    ensures q < Pow10(w - k) && Padded(n, w)[..w - k] == Padded(q, w - k)
    decreases k
  {
    if k == 0 {
      assert Padded(n, w)[..w] == Padded(n, w);
    } else {
      PrefixOfPadded(n, w, w - k);
      PaddedPrefix(n / 10, w - 1, k - 1, q);
    }
  }

  /** Decimals grow with their value: five digits from 10000 on. */
  lemma YearIsPadded(y: nat)
    ensures |YearText(y)| >= 4 && y < Pow10(|YearText(y)|) && YearText(y) == Padded(y, |YearText(y)|)
    ensures |YearText(y)| == 4 <==> y <= 9999
  {
    Widths();
    if y >= 10000 {
      PaddedOfValue(Decimal(y));
      WiderThan(y, |Decimal(y)|);
    }
  }

  lemma WiderThan(y: nat, w: nat)
    requires 10000 <= y < Pow10(w)
    ensures w >= 5
  {
    Widths();
    assert Pow10(0) == 1 && Pow10(1) == 10 && Pow10(3) == 1000;
  }

  lemma {:induction false} LexTotal(s: string, t: string)
    requires s != t
    ensures LexLess(s, t) <==> !LexLess(t, s)
  {
    if s != "" && t != "" && s[0] == t[0] {
      assert s == [s[0]] + s[1..] && t == [t[0]] + t[1..];
      LexTotal(s[1..], t[1..]);
    }
  }

  /** A dash sorts before any digit. */
  lemma DashBeforeDigit(x: string, s: string, lead: string, tail: string)
    requires |x| == |lead| && tail != "" && IsDigit(tail[0])
    ensures LexLess(x + ("-" + s), lead + tail) <==> LexLess(x, lead) || x == lead
  {
    LexByPrefix(x, lead, "-" + s, tail);
    assert ("-" + s)[0] == '-';
  }

  lemma SplitText(y: string, t: string, v: nat)
    requires v <= |y|
    ensures y + "-" + t == y[..v] + (y[v..] + "-" + t)
  {}

  /** A narrower year against a wider one: only the leading digits of the wider
      count, and if they are the same the dash sorts before the next digit. */
  lemma NarrowAgainstWide(a: nat, s: string, b: nat, t: string, k: nat)
    requires k > 0 && |YearText(b)| == |YearText(a)| + k
    ensures LexLess(YearText(a) + ("-" + s), YearText(b) + "-" + t) <==> a <= Leading(b, k)
  {
    var v := |YearText(a)|;
    YearIsPadded(a);
    YearIsPadded(b);
    PaddedPrefix(b, v + k, k, Leading(b, k));
    PaddedOrder(a, Leading(b, k), v);
    SplitText(YearText(b), t, v);
    DashBeforeDigit(YearText(a), s, YearText(b)[..v], YearText(b)[v..] + "-" + t);
  }

  /** What byte order makes of two dates: years written equally wide compare as
      the calendar does, otherwise the narrower year meets the leading digits of
      the wider one. */
  predicate TextBefore(a: Date, b: Date)
    requires a.year >= 0 && b.year >= 0
  {
    var v, w := |YearText(a.year)|, |YearText(b.year)|;
    if v == w then Before(a, b)
    else if v < w then a.year <= Leading(b.year, w - v)
    else Leading(a.year, v - w) < b.year
  }

  /** Two years compare alike as text and as numbers: they are written equally
      wide, or the narrower one is not above the leading digits of the wider. */
  predicate YearsCompare(a: nat, b: nat) {
    var v, w := |YearText(a)|, |YearText(b)|;
    if v == w then true
    else if v < w then a <= Leading(b, w - v)
    else b <= Leading(a, v - w)
  }

  lemma DateSplits(d: Date)
    requires Valid(d)
    ensures Pow10(2) == 100
    ensures FormatDate(d) == YearText(d.year) + "-" + (Padded(d.month, 2) + "-" + Padded(d.day, 2))
  {
    Widths();
  }

  lemma NarrowDate(a: Date, b: Date)
    requires Valid(a) && Valid(b) && |YearText(a.year)| < |YearText(b.year)|
    ensures LexLess(FormatDate(a), FormatDate(b)) <==> TextBefore(a, b)
  {
    DateSplits(a);
    DateSplits(b);
    var s := Padded(a.month, 2) + "-" + Padded(a.day, 2);
    assert YearText(a.year) + "-" + s == YearText(a.year) + ("-" + s);
    NarrowAgainstWide(a.year, s, b.year, Padded(b.month, 2) + "-" + Padded(b.day, 2),
                      |YearText(b.year)| - |YearText(a.year)|);
  }

  lemma WideDate(a: Date, b: Date)
    requires Valid(a) && Valid(b) && |YearText(b.year)| < |YearText(a.year)|
    ensures LexLess(FormatDate(a), FormatDate(b)) <==> TextBefore(a, b)
  {
    NarrowDate(b, a);
    DifferentTexts(a, b);
    LexTotal(FormatDate(a), FormatDate(b));
  }

  /** Exactly what byte order makes of two dates, for every year. */
  lemma TextOrderExact(a: Date, b: Date)
    requires Valid(a) && Valid(b)
    ensures LexLess(FormatDate(a), FormatDate(b)) <==> TextBefore(a, b)
  {
    if |YearText(a.year)| == |YearText(b.year)| {
      SameWidthOrder(a, b);
    } else if |YearText(a.year)| < |YearText(b.year)| {
      NarrowDate(a, b);
    } else {
      WideDate(a, b);
    }
  }

  lemma DifferentTexts(a: Date, b: Date)
    requires Valid(a) && Valid(b) && a != b
    ensures FormatDate(a) != FormatDate(b)
  {
    if FormatDate(a) == FormatDate(b) {
      FormatDateInjective(a, b);
    }
  }

  lemma SameWidthOrder(a: Date, b: Date)
    requires Valid(a) && Valid(b) && |YearText(a.year)| == |YearText(b.year)|
    ensures LexLess(FormatDate(a), FormatDate(b)) <==> TextBefore(a, b)
  {
    MonthTextOrder(a.year, a.month, b.year, b.month);
    LastField(FormatMonth(a.year, a.month), FormatMonth(b.year, b.month), a.day, b.day);
  }

  lemma MonthTextOrder(y: nat, m: nat, y': nat, m': nat)
    requires |YearText(y)| == |YearText(y')| && m < 100 && m' < 100
    ensures |FormatMonth(y, m)| == |FormatMonth(y', m')|
    ensures LexLess(FormatMonth(y, m), FormatMonth(y', m')) <==> y < y' || (y == y' && m < m')
    ensures FormatMonth(y, m) == FormatMonth(y', m') <==> y == y' && m == m'
  {
    Widths();
    YearIsPadded(y);
    YearIsPadded(y');
    PaddedOrder(y, y', |YearText(y)|);
    LastField(YearText(y), YearText(y'), m, m');
  }

  lemma NumbersAgree(a: Date, b: Date)
    requires a.year >= 0 && b.year >= 0
    ensures (TextBefore(a, b) <==> Before(a, b)) <==> YearsCompare(a.year, b.year)
  {
    if |YearText(a.year)| < |YearText(b.year)| {
      WiderIsLater(a.year, b.year);
    } else if |YearText(b.year)| < |YearText(a.year)| {
      WiderIsLater(b.year, a.year);
    }
  }

  /** Comparing dates as strings decides what it is meant to decide exactly when
      their years compare alike. */
  lemma TextAgreesExactly(a: Date, b: Date)
    requires Valid(a) && Valid(b)
    ensures (LexLess(FormatDate(a), FormatDate(b)) <==> Before(a, b)) <==> YearsCompare(a.year, b.year)
  {
    TextOrderExact(a, b);
    NumbersAgree(a, b);
  }

  lemma {:induction false} PowersGrow(j: nat, k: nat)
    requires j <= k
    ensures Pow10(j) <= Pow10(k)
    decreases k
  {
    if j < k {
      PowersGrow(j, k - 1);
    }
  }

  /** A decimal numeral has no leading zero. */
  lemma {:induction false} DecimalAtLeast(n: nat)
    requires n > 0
    ensures Pow10(|Decimal(n)| - 1) <= n
  {
    if n < 10 {
      assert Pow10(0) == 1;
    } else {
      DecimalAtLeast(n / 10);
      assert |Decimal(n)| == |Decimal(n / 10)| + 1;
    }
  }

  lemma WiderIsLater(a: nat, b: nat)
    requires |YearText(a)| < |YearText(b)|
    ensures a < b
  {
    YearIsPadded(a);
    YearIsPadded(b);
    DecimalAtLeast(b);
    PowersGrow(|YearText(a)|, |YearText(b)| - 1);
  }

  /** It is wrong for the last day of a four-digit year and the day after. */
  lemma TextOrderFailsAtYear10000()
    ensures var last, next := Date(9999, 12, 31), Date(10000, 1, 1);
            Before(last, next) && LexLess(FormatDate(next), FormatDate(last)) && !YearsCompare(last.year, next.year)
  {
    var last, next := Date(9999, 12, 31), Date(10000, 1, 1);
    YearIsPadded(9999);
    WideYear();
    TextOrderExact(last, next);
    TextOrderExact(next, last);
  }

  lemma FiveWide(y: nat)
    requires 10000 <= y <= 99999
    ensures |YearText(y)| == 5
  {
    assert |Decimal(y)| == |Decimal(y / 10)| + 1 == |Decimal(y / 10 / 10)| + 2 == |Decimal(y / 10 / 10 / 10)| + 3;
  }

  lemma WideYear()
    ensures |YearText(10000)| == 5 && Leading(10000, 1) == 1000
  {
    YearIsPadded(10000);
    assert |Decimal(10000)| == |Decimal(1000)| + 1 == |Decimal(100)| + 2;
    assert Leading(10000, 1) == Leading(1000, 0);
  }

  /** In particular on four-digit years. */
  lemma TextOrder(a: Date, b: Date)
    requires Valid(a) && Valid(b) && a.year <= 9999 && b.year <= 9999
    ensures LexLess(FormatDate(a), FormatDate(b)) <==> Before(a, b)
    ensures FormatDate(a) == FormatDate(b) <==> a == b
  {
    YearIsPadded(a.year);
    YearIsPadded(b.year);
    SameWidthOrder(a, b);
    if FormatDate(a) == FormatDate(b) {
      FormatDateInjective(a, b);
    }
  }

  /** The scheduler's idempotency key: recurring-<rule id>-<date>. */
  function RunKey(ruleId: nat, date: string): string {
    "recurring-" + Decimal(ruleId) + "-" + date
  }

  function FirstDash(s: string): nat {
    if s == "" || s[0] == '-' then 0 else 1 + FirstDash(s[1..])
  }

  lemma {:induction false} FirstDashAfterDigits(p: string, s: string)
    requires AllDigits(p)
    ensures FirstDash(p + "-" + s) == |p|
  {
    if p != "" {
      FirstDashAfterDigits(p[1..], s);
      assert (p + "-" + s)[1..] == p[1..] + "-" + s;
    }
  }

  /** A leading number and what follows its dash can both be read back. */
  lemma FieldInjective(p: string, s: string, q: string, t: string)
    requires AllDigits(p) && AllDigits(q) && p + "-" + s == q + "-" + t
    ensures p == q && s == t
  {
    FirstDashAfterDigits(p, s);
    FirstDashAfterDigits(q, t);
    assert p == (p + "-" + s)[..|p|] && q == (q + "-" + t)[..|p|];
    assert s == (p + "-" + s)[|p| + 1..] && t == (q + "-" + t)[|p| + 1..];
  }

  /** A dash ends the rule id, so equal keys name the same rule and date. This
      needs nothing of the date text, in particular not its width. */
  lemma RunKeyInjective(r: nat, d: string, r': nat, d': string)
    requires RunKey(r, d) == RunKey(r', d')
    ensures r == r' && d == d'
  {
    var prefix := "recurring-";
    var l, m := Decimal(r) + "-" + d, Decimal(r') + "-" + d';
    assert RunKey(r, d) == prefix + l && RunKey(r', d') == prefix + m;
    assert l == (prefix + l)[|prefix|..] && m == (prefix + m)[|prefix|..];
    FieldInjective(Decimal(r), d, Decimal(r'), d');
  }

  lemma YearTextInjective(y: nat, y': nat)
    requires YearText(y) == YearText(y')
    ensures y == y'
  {
    YearTextValue(y);
    YearTextValue(y');
  }

  lemma YearTextValue(y: nat)
    ensures Value(YearText(y)) == y
  {
    Widths();
    if y < 10000 {
      PaddedValue(y, 4);
    }
  }

  lemma FormatMonthInjective(y: nat, m: nat, y': nat, m': nat)
    requires m < 100 && m' < 100 && FormatMonth(y, m) == FormatMonth(y', m')
    ensures y == y' && m == m'
  {
    Widths();
    FieldInjective(YearText(y), Padded(m, 2), YearText(y'), Padded(m', 2));
    YearTextInjective(y, y');
    PaddedOrder(m, m', 2);
  }

  /** Whatever the year, a date's text names no other date. */
  lemma FormatDateInjective(a: Date, b: Date)
    requires Valid(a) && Valid(b) && FormatDate(a) == FormatDate(b)
    ensures a == b
  {
    Widths();
    DayFieldInjective(FormatMonth(a.year, a.month), a.day, FormatMonth(b.year, b.month), b.day);
    FormatMonthInjective(a.year, a.month, b.year, b.month);
  }

  lemma DayFieldInjective(p: string, j: nat, q: string, k: nat)
    requires j < Pow10(2) && k < Pow10(2) && p + "-" + Padded(j, 2) == q + "-" + Padded(k, 2)
    ensures p == q && j == k
  {
    Widths();
    var s, t := p + "-" + Padded(j, 2), q + "-" + Padded(k, 2);
    assert |p| == |s| - 3 && |q| == |t| - 3;
    LastField(p, q, j, k);
  }
}
