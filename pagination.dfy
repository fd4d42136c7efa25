/** Django's `Paginator(object_list, 9)` with its defaults
    (`orphans=0`, `allow_empty_first_page=True`), its `get_page`, and the
    `int()` conversion `get_page` applies to the page parameter. */
module Pagination {
  import opened Wrappers
  import opened Strings
  import opened Digits

  datatype Page<T> = Page(items: seq<T>, number: nat, numPages: nat)

  /** The page size of every paginated listing of the site (`Paginator(qs, 9)`). */
  const PerPage: nat := 9

  /** `Paginator.num_pages`: enough pages of `PerPage` for `count` items,
      and never fewer than one (an empty list still has its first page). */
  function NumPages(count: nat): (n: nat)
    ensures n >= 1
    ensures count <= n * PerPage
    ensures count > 0 ==> (n - 1) * PerPage < count
    ensures count == 0 ==> n == 1
  {
    if count == 0 then 1 else (count + PerPage - 1) / PerPage
  }

  /** `sys.get_int_max_str_digits()` at its default: `int()` refuses a
      numeral with more digits than this (underscores, sign and
      surrounding whitespace do not count). */
  const MaxDigits: nat := 4300

  predicate IsDigit(c: char) {
    '0' <= c <= '9'
  }

  predicate AllDigits(s: string) {
    forall i :: 0 <= i < |s| ==> IsDigit(s[i])
  }

  /** The value of a string of ASCII digits, most significant first. */
  function DigitsValue(s: string): (v: nat)
    requires AllDigits(s)
  {
    if s == [] then 0 else DigitsValue(s[..|s| - 1]) * 10 + (s[|s| - 1] as int - '0' as int)
  }

  predicate AllDecimal(s: string) {
    forall i :: 0 <= i < |s| ==> IsDecimal(s[i])
  }

  /** The value of a string of decimal digits of any script, most significant first. */
  function DecimalsValue(s: string): (v: nat)
    requires AllDecimal(s)
  {
    if s == [] then 0 else DecimalsValue(s[..|s| - 1]) * 10 + DecimalValue(s[|s| - 1]).value
  }

  /** Python's `str(n)` for a natural number. */
  function ShowNat(n: nat): (s: string)
    ensures s != [] && AllDigits(s)
  {
    if n < 10 then [('0' as int + n) as char]
    else ShowNat(n / 10) + [('0' as int + n % 10) as char]
  }

  // Python's `int(s)` on a string works in two steps. Every character is
  // first replaced by an ASCII one: ASCII characters stay, any other
  // whitespace becomes a space, any other decimal digit becomes the ASCII
  // digit of the same value, and any other character makes it raise. The
  // ASCII text is then read as ASCII whitespace, an optional sign, digits
  // with single underscores between them, and ASCII whitespace.

  /** The whitespace the ASCII reader skips: space, tab, line feed, vertical
      tab, form feed and carriage return. The separators U+001C..U+001F,
      which `str.strip` removes, are not among them. */
  predicate IsAsciiSpace(c: char) {
    c == ' ' || ('\t' <= c <= '\r')
  }

  /** A character `int()` can accept somewhere in its argument. */
  predicate IntChar(c: char) {
    || (IsSpace(c) && !('\U{1C}' <= c <= '\U{1F}'))
    || c == '+' || c == '-' || c == '_'
    || IsDecimal(c)
  }

  /** A character of the ASCII text that the reader can accept. */
  predicate NumeralChar(c: char) {
    IsDigit(c) || c == '+' || c == '-' || c == '_'
  }

  /** The ASCII character that stands for `c`, or `None` when `c` makes `int()` raise. */
  function AsciiChar(c: char): (r: Option<char>)
    ensures c as int < 127 ==> r == Some(c)
  {
    if c as int < 127 then Some(c)
    else if IsSpace(c) then Some(' ')
    else match DecimalValue(c)
      case Some(d) => Some(('0' as int + d) as char)
      case None => None
  }

  /** A decimal digit stands for the ASCII digit of its value, and only
      characters `int()` can accept stand for ASCII whitespace, signs,
      underscores or digits. */
  lemma AsciiCharSpec(c: char)
    ensures IsDecimal(c) ==> AsciiChar(c) == Some(('0' as int + DecimalValue(c).value) as char)
    ensures AsciiChar(c).Some? && (IsAsciiSpace(AsciiChar(c).value) || NumeralChar(AsciiChar(c).value)) ==> IntChar(c)
  {
    DecimalPlacement(c);
  }

  /** `s` in ASCII, character by character; `None` as soon as one character has no stand-in. */
  function ToAscii(s: string): Option<string> {
    if s == [] then Some([])
    else
      match ToAscii(s[..|s| - 1])
      case None => None
      case Some(a) =>
        match AsciiChar(s[|s| - 1])
        case None => None
        case Some(c) => Some(a + [c])
  }

  /** `s` has an ASCII form exactly when every character has a stand-in,
      and then each character of the form stands for the character of `s`
      at the same place. */
  lemma {:induction false} ToAsciiSpec(s: string)
    ensures ToAscii(s).Some? <==> forall i :: 0 <= i < |s| ==> AsciiChar(s[i]).Some?
    ensures ToAscii(s).Some? ==> |ToAscii(s).value| == |s|
    ensures ToAscii(s).Some? ==> forall i :: 0 <= i < |s| ==> AsciiChar(s[i]) == Some(ToAscii(s).value[i])
  {
    if s != [] {
      var init := s[..|s| - 1];
      ToAsciiSpec(init);
      assert forall i :: 0 <= i < |init| ==> init[i] == s[i];
    }
  }

  /** `a` without its leading ASCII whitespace. */
  function LTrim(a: string): string {
    if a != [] && IsAsciiSpace(a[0]) then LTrim(a[1..]) else a
  }

  /** `a` without its trailing ASCII whitespace. */
  function RTrim(a: string): string {
    if a != [] && IsAsciiSpace(a[|a| - 1]) then RTrim(a[..|a| - 1]) else a
  }

  /** `a` without ASCII whitespace at either end. */
  function TrimAscii(a: string): string {
    RTrim(LTrim(a))
  }

  lemma {:induction false} LTrimSpec(a: string)
    ensures |LTrim(a)| <= |a| && LTrim(a) == a[|a| - |LTrim(a)|..]
    ensures forall k :: 0 <= k < |a| - |LTrim(a)| ==> IsAsciiSpace(a[k])
  {
    if a != [] && IsAsciiSpace(a[0]) {
      LTrimSpec(a[1..]);
    }
  }

  lemma {:induction false} RTrimSpec(a: string)
    ensures |RTrim(a)| <= |a| && RTrim(a) == a[..|RTrim(a)|]
    ensures forall k :: |RTrim(a)| <= k < |a| ==> IsAsciiSpace(a[k])
  {
    if a != [] && IsAsciiSpace(a[|a| - 1]) {
      RTrimSpec(a[..|a| - 1]);
    }
  }

  /** Trimming only cuts ASCII whitespace: every character of `a` is
      whitespace or a character of what remains. */
  lemma TrimAsciiCuts(a: string, k: int)
    requires 0 <= k < |a|
    ensures IsAsciiSpace(a[k]) || exists j :: 0 <= j < |TrimAscii(a)| && TrimAscii(a)[j] == a[k]
  {
    var l := LTrim(a);
    LTrimSpec(a);
    RTrimSpec(l);
    var r := RTrim(l);
    var i := |a| - |l|;
    assert TrimAscii(a) == r;
    if i <= k < i + |r| {
      assert r[k - i] == l[k - i] == a[k];
    } else if k >= i + |r| {
      assert l[k - i] == a[k];
    }
  }

  /** The digits of `d` without its underscores, when `d` is digits with
      single underscores between them, which is what the reader accepts in
      base 10 after the sign; `None` otherwise. */
  function Ungroup(d: string): (r: Option<string>)
    ensures r.Some? ==> r.value != [] && AllDigits(r.value)
    ensures d != [] && AllDigits(d) ==> r == Some(d)
    decreases |d|
  {
    if d == [] || !IsDigit(d[0]) then None
    else if |d| == 1 then Some(d)
    else
      var rest := if d[1] == '_' then d[2..] else d[1..];
      assert AllDigits(d) ==> d[1] != '_' && AllDigits(rest) && [d[0]] + rest == d;
      match Ungroup(rest)
      case None => None
      case Some(g) => Some([d[0]] + g)
  }

  /** Python's `int(s)`, with `None` where it raises `ValueError`. It
      accepts nothing but whitespace (U+001C..U+001F excepted), signs,
      underscores and decimal digits. */
  function ParseInt(s: string): (r: Option<int>)
    ensures r.Some? ==> forall k :: 0 <= k < |s| ==> IntChar(s[k])
  {
    match ToAscii(s)
    case None => None
    case Some(a) =>
      AcceptedChars(s, a);
      ParseNumeral(TrimAscii(a))
  }

  lemma AcceptedChars(s: string, a: string)
    requires ToAscii(s) == Some(a)
    ensures ParseNumeral(TrimAscii(a)).Some? ==> forall k :: 0 <= k < |s| ==> IntChar(s[k])
  {
    ToAsciiSpec(s);
    NumeralChars(TrimAscii(a));
    if ParseNumeral(TrimAscii(a)).Some? {
      forall k | 0 <= k < |s| ensures IntChar(s[k]) {
        TrimAsciiCuts(a, k);
        assert IsAsciiSpace(a[k]) || NumeralChar(a[k]);
        AsciiCharSpec(s[k]);
      }
    }
  }

  /** The value read, negated. */
  function Negated(r: Option<int>): Option<int> {
    match r
    case None => None
    case Some(v) => Some(-v)
  }

  /** The reader on the trimmed ASCII text: an optional sign, then digits. */
  function ParseNumeral(t: string): Option<int> {
    if t == [] then None
    else if t[0] == '+' then ParseDigits(t[1..])
    else if t[0] == '-' then Negated(ParseDigits(t[1..]))
    else ParseDigits(t)
  }

  /** Grouped digits read without their underscores; plain digits read as they are. */
  function ParseDigits(d: string): (r: Option<int>)
    ensures r.Some? ==> r.value >= 0
    ensures d != [] && AllDigits(d) ==> r == if |d| <= MaxDigits then Some(DigitsValue(d)) else None
  {
    match Ungroup(d)
    case None => None
    case Some(g) => if |g| > MaxDigits then None else Some(DigitsValue(g))
  }

  /** What the reader accepts after the sign holds only digits and underscores. */
  lemma {:induction false} UngroupChars(d: string)
    ensures Ungroup(d).Some? ==> forall k :: 0 <= k < |d| ==> IsDigit(d[k]) || d[k] == '_'
    decreases |d|
  {
    if d != [] && IsDigit(d[0]) && |d| > 1 {
      var rest := if d[1] == '_' then d[2..] else d[1..];
      UngroupChars(rest);
      if Ungroup(d).Some? {
        assert forall k :: |d| - |rest| <= k < |d| ==> d[k] == rest[k - (|d| - |rest|)];
      }
    }
  }

  /** The reader accepts nothing but signs, underscores and ASCII digits. */
  lemma NumeralChars(t: string)
    ensures ParseNumeral(t).Some? ==> forall k :: 0 <= k < |t| ==> NumeralChar(t[k])
  {
    if t != [] && (t[0] == '+' || t[0] == '-') {
      UngroupChars(t[1..]);
      assert forall k :: 1 <= k < |t| ==> t[k] == t[1..][k - 1];
    } else {
      UngroupChars(t);
    }
  }

  lemma {:induction false} DigitsValueShowNat(n: nat)
    ensures DigitsValue(ShowNat(n)) == n
  {
    if n >= 10 {
      DigitsValueShowNat(n / 10);
      var s := ShowNat(n);
      assert s[..|s| - 1] == ShowNat(n / 10);
    }
  }

  /** Text that is already ASCII and has no whitespace at either end goes
      to the reader unchanged. */
  lemma AsciiUnchanged(t: string)
    requires t != [] && !IsAsciiSpace(t[0]) && !IsAsciiSpace(t[|t| - 1])
    requires forall i :: 0 <= i < |t| ==> t[i] as int < 127
    ensures ToAscii(t) == Some(t) && TrimAscii(t) == t
  {
    ToAsciiSpec(t);
    var a := ToAscii(t).value;
    assert a == t;
  }

  /** A string of ASCII digits, with or without a sign in front, is read
      as its digits' value, negated for `-`, unless it has more digits than
      the limit. */
  lemma ParseIntNumeral(d: string)
    requires d != [] && AllDigits(d)
    ensures ParseInt(d) == if |d| <= MaxDigits then Some(DigitsValue(d)) else None
    ensures ParseInt("+" + d) == if |d| <= MaxDigits then Some(DigitsValue(d)) else None
    ensures ParseInt("-" + d) == Negated(ParseInt(d))
  {
    AsciiUnchanged(d);
    ReadAsIs(d);
    SignedAscii(d, '+');
    ReadAsIs("+" + d);
    NumeralSigned(d, '+');
    SignedAscii(d, '-');
    ReadAsIs("-" + d);
    NumeralSigned(d, '-');
  }

  /** ASCII text without whitespace at either end is read by the reader as it is. */
  lemma ReadAsIs(t: string)
    requires ToAscii(t) == Some(t) && TrimAscii(t) == t
    ensures ParseInt(t) == ParseNumeral(t)
  {
  }

  lemma SignedAscii(d: string, sign: char)
    requires d != [] && AllDigits(d)
    requires sign == '+' || sign == '-'
    ensures ToAscii([sign] + d) == Some([sign] + d) && TrimAscii([sign] + d) == [sign] + d
  {
    var t := [sign] + d;
    assert t[|t| - 1] == d[|d| - 1];
    assert forall i :: 1 <= i < |t| ==> t[i] == d[i - 1];
    AsciiUnchanged(t);
  }

  /** After a sign, the reader reads the rest as digits, negated for `-`. */
  lemma NumeralSigned(d: string, sign: char)
    requires d != [] && AllDigits(d)
    requires sign == '+' || sign == '-'
    ensures ParseNumeral([sign] + d) == if sign == '+' then ParseDigits(d) else Negated(ParseDigits(d))
  {
    var t := [sign] + d;
    assert t[0] == sign && t[1..] == d;
  }

  /** `int(str(n))` gives back `n`, and so does `int` of the number
      written with a sign, for every `n` of at most `MaxDigits` digits. */
  lemma {:induction false} ParseIntShowNat(n: nat)
    ensures |ShowNat(n)| <= MaxDigits ==> ParseInt(ShowNat(n)) == Some(n)
    ensures |ShowNat(n)| <= MaxDigits ==> ParseInt("+" + ShowNat(n)) == Some(n)
    ensures |ShowNat(n)| <= MaxDigits ==> ParseInt("-" + ShowNat(n)) == Some(-(n as int))
  {
    var d := ShowNat(n);
    DigitsValueShowNat(n);
    ParseIntNumeral(d);
  }

  /** Decimal digits of any script are read as the ASCII digits of the same values. */
  lemma {:induction false} ToAsciiDecimal(s: string)
    requires AllDecimal(s)
    ensures ToAscii(s).Some? && AllDigits(ToAscii(s).value)
    ensures DigitsValue(ToAscii(s).value) == DecimalsValue(s)
  {
    if s != [] {
      var init := s[..|s| - 1];
      ToAsciiDecimal(init);
      AsciiCharSpec(s[|s| - 1]);
      ToAsciiSpec(init);
      var a := ToAscii(s).value;
      assert a[..|a| - 1] == ToAscii(init).value;
    }
  }

  /** `int()` of a string of decimal digits of any script is their value,
      unless there are more of them than the limit. */
  lemma ParseIntDecimal(s: string)
    requires s != [] && AllDecimal(s)
    ensures ParseInt(s) == if |s| <= MaxDigits then Some(DecimalsValue(s)) else None
  {
    ToAsciiDecimal(s);
    ToAsciiSpec(s);
    var a := ToAscii(s).value;
    DigitsUnchanged(a);
  }

  lemma DigitsUnchanged(a: string)
    requires a != [] && AllDigits(a)
    ensures TrimAscii(a) == a
    ensures ParseNumeral(a) == if |a| <= MaxDigits then Some(DigitsValue(a)) else None
  {
    assert forall i :: 0 <= i < |a| ==> a[i] as int < 127;
    AsciiUnchanged(a);
  }

  /** Single underscores between digits are allowed and do not count. */
  lemma ParseIntUnderscore()
    ensures ParseInt("1_000") == Some(1000)
  {
    var d := "1_000";
    AsciiUnchanged(d);
    ReadAsIs(d);
    assert d[1] == '_' && d[2..] == "000";
    assert AllDigits("000") && Ungroup("000") == Some("000");
    assert IsDigit(d[0]) && [d[0]] + "000" == "1000";
    assert Ungroup(d) == Some("1000");
    assert "1000"[..3] == "100" && "100"[..2] == "10" && "10"[..1] == "1";
    assert DigitsValue("1000") == 1000;
  }

  /** A file separator in front of a number makes `int()` raise, although
      `str.strip` would have removed it, so `get_page` falls back to page 1. */
  lemma SeparatorRefused(count: nat)
    ensures ParseInt("\U{1C}2") == None
    ensures GetPage(count, Some("\U{1C}2")) == 1
  {
  }

  /** A page number of more digits than the limit makes `int()` raise,
      so `get_page` falls back to page 1 however large the number. */
  lemma OverlongPageIsFirst(count: nat, d: string)
    requires d != [] && AllDigits(d) && |d| > MaxDigits
    ensures ParseInt(d) == None
    ensures GetPage(count, Some(d)) == 1
  {
    ParseIntNumeral(d);
  }

  /** `Paginator.get_page(number)`: a number that is not an integer gives
      page 1; an integer below 1 or past the last page gives the last page;
      any other integer is that page. It never raises. */
  function GetPage(count: nat, number: Option<string>): (n: nat)
    ensures 1 <= n <= NumPages(count)
    ensures (number.None? || ParseInt(number.value).None?) ==> n == 1
    ensures number.Some? && ParseInt(number.value).Some? ==>
      var v := ParseInt(number.value).value;
      n == if 1 <= v <= NumPages(count) then v else NumPages(count)
  {
    var last := NumPages(count);
    match number
    case None => 1
    case Some(s) =>
      match ParseInt(s)
      case None => 1
      case Some(v) => if v < 1 || v > last then last else v
  }

  /** `Paginator.page(n).object_list`: the `n`-th run of `PerPage` items;
      every page but the last is full, and the last runs to the end. */
  function PageItems<T>(s: seq<T>, n: nat): (r: seq<T>)
    requires 1 <= n <= NumPages(|s|)
    ensures |r| <= PerPage
    ensures (n - 1) * PerPage + |r| <= |s| && r == s[(n - 1) * PerPage..(n - 1) * PerPage + |r|]
    ensures n < NumPages(|s|) ==> |r| == PerPage
    ensures n == NumPages(|s|) ==> (n - 1) * PerPage + |r| == |s|
  {
    var lo := (n - 1) * PerPage;
    if lo + PerPage >= |s| then s[lo..] else s[lo..lo + PerPage]
  }

  /** `paginator.get_page(number)` for the list `s`. */
  function Paginate<T>(s: seq<T>, number: Option<string>): (p: Page<T>)
    ensures p.numPages == NumPages(|s|)
    ensures 1 <= p.number <= p.numPages
    ensures p.items == PageItems(s, p.number)
    ensures number.None? ==> p.number == 1
  {
    var n := GetPage(|s|, number);
    Page(PageItems(s, n), n, NumPages(|s|))
  }

  /** Pages `1..k` one after the other. */
  function PagesUpTo<T>(s: seq<T>, k: nat): seq<T>
    requires k <= NumPages(|s|)
  {
    if k == 0 then [] else PagesUpTo(s, k - 1) + PageItems(s, k)
  }

  lemma {:induction false} PagesUpToPrefix<T>(s: seq<T>, k: nat)
    requires k <= NumPages(|s|)
    ensures PagesUpTo(s, k) == s[..if k < NumPages(|s|) then k * PerPage else |s|]
  {
    if k > 0 {
      var lo := (k - 1) * PerPage;
      var hi := if k < NumPages(|s|) then k * PerPage else |s|;
      PagesUpToPrefix(s, k - 1);
      PageSlice(s, k);
      SliceJoin(s, lo, hi);
    }
  }

  /** Page `k` is the slice of the list from the end of page `k - 1` to
      its own end. */
  lemma PageSlice<T>(s: seq<T>, k: nat)
    requires 1 <= k <= NumPages(|s|)
    ensures var hi := if k < NumPages(|s|) then k * PerPage else |s|;
      (k - 1) * PerPage <= hi <= |s| && PageItems(s, k) == s[(k - 1) * PerPage..hi]
  {
    var r := PageItems(s, k);
    assert (k - 1) * PerPage + PerPage == k * PerPage;
  }

  lemma SliceJoin<T>(s: seq<T>, i: nat, j: nat)
    requires i <= j <= |s|
    ensures s[..i] + s[i..j] == s[..j]
  {
  }

  /** The pages split the list: read one after the other, they give back
      every item exactly once, in order. */
  lemma PagesCoverList<T>(s: seq<T>)
    ensures PagesUpTo(s, NumPages(|s|)) == s
  {
    PagesUpToPrefix(s, NumPages(|s|));
  }

  /** With the default page parameter `"1"` the first page is shown. */
  lemma DefaultPageIsFirst(count: nat)
    ensures GetPage(count, Some("1")) == 1
  {
    ParseIntShowNat(1);
    assert ShowNat(1) == "1";
  }
}
