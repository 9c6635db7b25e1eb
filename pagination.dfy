/**
 * The page / page_size / offset normalisation that the three list handlers
 * repeat (backend/internal/api/video.go, report.go and job.go): the query
 * values are parsed with Go's `strconv.Atoi` (errors ignored), clamped, and
 * the offset `(page-1)*pageSize` is computed in 64-bit `int`, which wraps.
 */
module Pagination {
  import opened Wrappers

  const MaxInt64: int := 0x7FFF_FFFF_FFFF_FFFF
  const MinInt64: int := -0x8000_0000_0000_0000
  const MaxUint64: int := 0xFFFF_FFFF_FFFF_FFFF
  const TwoTo64: int := 0x1_0000_0000_0000_0000

  /** `ParseUint`'s overflow guard: multiplying by 10 from here on overflows. */
  const Cutoff: int := MaxUint64 / 10 + 1

  const DefaultPage: int := 1
  const DefaultPageSize: int := 20
  const MaxPageSize: int := 100

  predicate IsDigit(c: char) {
    '0' <= c <= '9'
  }

  function DigitValue(c: char): nat
    requires IsDigit(c)
  {
    c as int - '0' as int
  }

  /** How `strconv.ParseUint`'s digit loop ends. */
  datatype Scan = Digits(n: nat) | SyntaxError | RangeError

  /**
   * The digit loop of `strconv.ParseUint` in base 10, from accumulator
   * `acc`: a non-digit is a syntax error, and the loop returns a range
   * error as soon as the value leaves uint64, before looking further.
   */
  function ScanDigits(s: string, acc: nat): (r: Scan)
    requires acc <= MaxUint64
    ensures r.Digits? ==> r.n <= MaxUint64
    ensures r.Digits? ==> forall i :: 0 <= i < |s| ==> IsDigit(s[i])
    decreases |s|
  {
    if s == [] then Digits(acc)
    else if !IsDigit(s[0]) then SyntaxError
    else if acc >= Cutoff then RangeError
    else
      var n1 := acc * 10 + DigitValue(s[0]);
      if n1 > MaxUint64 then RangeError else ScanDigits(s[1..], n1)
  }

  /** `strconv.ParseUint(s, 10, 64)`: the empty string is a syntax error. */
  function ParseUint(s: string): Scan {
    if s == [] then SyntaxError else ScanDigits(s, 0)
  }

  /**
   * `strconv.Atoi` on a 64-bit platform with its error dropped, as the
   * handlers call it: an optional sign, then digits; a syntax error gives 0
   * and a value out of range gives the nearest bound.
   */
  function Atoi(s: string): (r: int)
    ensures MinInt64 <= r <= MaxInt64
  {
    if s == [] then 0
    else
      var neg := s[0] == '-';
      var body := if s[0] == '+' || s[0] == '-' then s[1..] else s;
      match ParseUint(body)
      case SyntaxError => 0
      case RangeError => if neg then MinInt64 else MaxInt64
      case Digits(u) =>
        if !neg && u > MaxInt64 then MaxInt64
        else if neg && u > -MinInt64 then MinInt64
        else if neg then -(u as int) else u
  }

  /** gin's `DefaultQuery`: the value when the key is present (even if empty), else the default. */
  function QueryOr(param: Option<string>, default: string): string {
    match param
    case Some(v) => v
    case None => default
  }

  /** Two's-complement wrap-around of a value into `int64`. */
  function Wrap64(x: int): (r: int)
    ensures MinInt64 <= r <= MaxInt64
    ensures (r - x) % TwoTo64 == 0
    ensures MinInt64 <= x <= MaxInt64 ==> r == x
  {
    if MinInt64 <= x <= MaxInt64 then x else (x - MinInt64) % TwoTo64 + MinInt64
  }

  /** What a list handler passes to `Limit` and `Offset` and echoes back. */
  datatype Window = Window(page: int, pageSize: int, offset: int)

  /** The clamps and the offset as written, on the parsed values. */
  function Clamp(page: int, pageSize: int): Window {
    var page := if page < 1 then DefaultPage else page;
    var pageSize := if pageSize < 1 || pageSize > MaxPageSize then DefaultPageSize else pageSize;
    Window(page, pageSize, Wrap64((page - 1) * pageSize))
  }

  /** The normalisation as written, for the `page` and `page_size` query parameters. */
  function Normalize(pageParam: Option<string>, sizeParam: Option<string>): Window {
    Clamp(Atoi(QueryOr(pageParam, "1")), Atoi(QueryOr(sizeParam, "20")))
  }

  /** The decimal digits of n, most significant first, as `strconv.Itoa` prints them. */
  function Decimal(n: nat): (s: string)
    ensures |s| >= 1
    ensures forall i :: 0 <= i < |s| ==> IsDigit(s[i])
  {
    if n < 10 then [('0' as int + n) as char]
    else Decimal(n / 10) + [('0' as int + n % 10) as char]
  }

  /** One more digit at the end extends a scan that has not overflowed. */
  lemma {:induction false} ScanAppend(s: string, d: char, acc: nat, m: nat)
    requires acc <= MaxUint64 && IsDigit(d)
    requires ScanDigits(s, acc) == Digits(m)
    requires m < Cutoff && m * 10 + DigitValue(d) <= MaxUint64
    ensures ScanDigits(s + [d], acc) == Digits(m * 10 + DigitValue(d))
    decreases |s|
  {
    if s == [] {
      assert s + [d] == [d];
      assert [d][1..] == [];
    } else {
      var n1 := acc * 10 + DigitValue(s[0]);
      assert (s + [d])[0] == s[0];
      assert (s + [d])[1..] == s[1..] + [d];
      ScanAppend(s[1..], d, n1, m);
    }
  }

  /** Scanning a number's decimal digits gives the number back. */
  lemma {:induction false} ScanDecimal(n: nat)
    requires n <= MaxUint64
    ensures ScanDigits(Decimal(n), 0) == Digits(n)
  {
    var c := ('0' as int + n % 10) as char;
    if n < 10 {
      assert [c][1..] == [];
    } else {
      ScanDecimal(n / 10);
      ScanAppend(Decimal(n / 10), c, 0, n / 10);
    }
  }

  /** Atoi reads back the decimal form of every int64 value. */
  lemma AtoiDecimal(n: int)
    requires MinInt64 <= n <= MaxInt64
    ensures n >= 0 ==> Atoi(Decimal(n)) == n
    ensures n < 0 ==> Atoi("-" + Decimal(-n)) == n
  {
    if n >= 0 {
      ScanDecimal(n);
      assert IsDigit(Decimal(n)[0]);
    } else {
      ScanDecimal(-n);
      assert ("-" + Decimal(-n))[1..] == Decimal(-n);
    }
  }

  function Pow10(k: nat): (r: nat)
    ensures r >= 1
  {
    if k == 0 then 1 else 10 * Pow10(k - 1)
  }

  predicate AllDigits(s: string) {
    forall i :: 0 <= i < |s| ==> IsDigit(s[i])
  }

  lemma AllDigitsCons(s: string)
    requires s != []
    ensures AllDigits(s) <==> IsDigit(s[0]) && AllDigits(s[1..])
  {
    if IsDigit(s[0]) && AllDigits(s[1..]) {
      forall i | 0 <= i < |s| ensures IsDigit(s[i]) {
        if i > 0 { assert s[i] == s[1..][i - 1]; }
      }
    }
  }

  /** One digit more keeps a short accumulator below the next power of ten, far from overflow. */
  lemma ShortStep(acc: nat, d: nat, k: nat)
    requires k <= 18 && acc < Pow10(k) && d <= 9
    ensures acc < Cutoff && acc * 10 + d < Pow10(k + 1) && acc * 10 + d <= MaxUint64
  {
    Pow10Bound(k);
    Pow10Bound(k + 1);
  }

  /** A scan that does not overflow fails exactly on a non-digit. */
  lemma {:induction false} ScanSyntax(s: string, acc: nat)
    requires acc <= MaxUint64 && ScanDigits(s, acc) != RangeError
    ensures ScanDigits(s, acc) == SyntaxError <==> !AllDigits(s)
    decreases |s|
  {
    if s != [] {
      AllDigitsCons(s);
      if IsDigit(s[0]) {
        ScanSyntax(s[1..], acc * 10 + DigitValue(s[0]));
      }
    }
  }

  /** A scan of at most 19 characters cannot overflow. */
  lemma {:induction false} ShortScan(s: string, acc: nat)
    requires |s| <= 19 && acc <= MaxUint64 && acc < Pow10(19 - |s|)
    ensures ScanDigits(s, acc) != RangeError
    decreases |s|
  {
    if s != [] && IsDigit(s[0]) {
      var d := DigitValue(s[0]);
      ShortStep(acc, d, 19 - |s|);
      var n1 := acc * 10 + d;
      assert ScanDigits(s, acc) == ScanDigits(s[1..], n1);
      ShortScan(s[1..], n1);
    }
  }

  lemma {:induction false} Pow10Bound(k: nat)
    requires k <= 19
    ensures k <= 18 ==> Pow10(k) <= Cutoff - 1
    ensures Pow10(k) <= Pow10(19) && Pow10(19) <= MaxUint64 + 1
    decreases 19 - k
  {
    Pow10Values();
    if k < 19 {
      Pow10Bound(k + 1);
    }
  }

  lemma {:induction false} Pow10Add(a: nat, b: nat)
    ensures Pow10(a + b) == Pow10(a) * Pow10(b)
    decreases a
  {
    if a > 0 {
      Pow10Add(a - 1, b);
    }
  }

  lemma Pow10Values()
    ensures Pow10(18) == 1_000_000_000_000_000_000
    ensures Pow10(19) == 10_000_000_000_000_000_000
  {
    assert Pow10(2) == 100;
    assert Pow10(4) == 10_000;
    Pow10Add(4, 4);
    Pow10Add(8, 8);
    Pow10Add(16, 2);
  }

  /**
   * An unparseable value of fewer than 20 characters (a character other
   * than a digit, past an optional leading sign) reads as 0.
   */
  lemma MalformedReadsZero(s: string, i: nat)
    requires |s| <= 19 && i < |s| && !IsDigit(s[i])
    requires i == 0 ==> s[0] != '+' && s[0] != '-'
    ensures Atoi(s) == 0
  {
    var body := if s[0] == '+' || s[0] == '-' then s[1..] else s;
    var j := if s[0] == '+' || s[0] == '-' then i - 1 else i;
    assert !IsDigit(body[j]);
    assert !AllDigits(body);
    ShortScan(body, 0);
    ScanSyntax(body, 0);
  }

  /**
   * The bounds every handler relies on, in both directions: a parsed page
   * is kept exactly when it is at least 1 (else 1), a parsed page size
   * exactly when it lies in [1, 100] (else 20).
   */
  lemma NormalizeBounds(pageParam: Option<string>, sizeParam: Option<string>)
    ensures var w := Normalize(pageParam, sizeParam);
      && 1 <= w.page <= MaxInt64 && 1 <= w.pageSize <= MaxPageSize
      && (w.page == Atoi(QueryOr(pageParam, "1")) <==> Atoi(QueryOr(pageParam, "1")) >= 1)
      && (w.page != Atoi(QueryOr(pageParam, "1")) ==> w.page == DefaultPage)
      && (w.pageSize == Atoi(QueryOr(sizeParam, "20")) <==> 1 <= Atoi(QueryOr(sizeParam, "20")) <= MaxPageSize)
      && (w.pageSize != Atoi(QueryOr(sizeParam, "20")) ==> w.pageSize == DefaultPageSize)
  {
    var p := Atoi(QueryOr(pageParam, "1"));
    var z := Atoi(QueryOr(sizeParam, "20"));
    assert Normalize(pageParam, sizeParam) == Clamp(p, z);
  }

  /** The default query values parse to the defaults. */
  lemma DefaultTextsParse()
    ensures Atoi("1") == 1 && Atoi("20") == 20
  {
    AtoiDecimal(1);
    AtoiDecimal(20);
    assert Decimal(20) == "20" by {
      assert Decimal(2) == "2";
    }
  }

  /**
   * A value of at most 19 characters with a character other than a digit
   * past the optional leading sign: `strconv.Atoi` rejects it with a
   * syntax error before any range error can arise.
   */
  predicate ShortMalformed(s: string) {
    |s| <= 19 && exists i :: 0 <= i < |s| && !IsDigit(s[i]) && (i == 0 ==> s[0] != '+' && s[0] != '-')
  }

  /** A parameter the handlers replace by its default: absent, empty, or short and malformed. */
  predicate Defaulted(param: Option<string>) {
    param.None? || param == Some("") || ShortMalformed(param.value)
  }

  /** Absent, empty and short malformed parameters give page 1 of 20. */
  lemma DefaultsApply(pageParam: Option<string>, sizeParam: Option<string>)
    requires Defaulted(pageParam) && Defaulted(sizeParam)
    ensures Normalize(pageParam, sizeParam) == Window(1, 20, 0)
  {
    DefaultTextsParse();
    var p := Atoi(QueryOr(pageParam, "1"));
    var z := Atoi(QueryOr(sizeParam, "20"));
    if pageParam.Some? && pageParam.value != "" {
      var i :| 0 <= i < |pageParam.value| && !IsDigit(pageParam.value[i]) && (i == 0 ==> pageParam.value[0] != '+' && pageParam.value[0] != '-');
      MalformedReadsZero(pageParam.value, i);
    }
    if sizeParam.Some? && sizeParam.value != "" {
      var i :| 0 <= i < |sizeParam.value| && !IsDigit(sizeParam.value[i]) && (i == 0 ==> sizeParam.value[0] != '+' && sizeParam.value[0] != '-');
      MalformedReadsZero(sizeParam.value, i);
    }
    assert p <= 1 && (z == 0 || z == 20);
    assert Normalize(pageParam, sizeParam) == Clamp(p, z);
  }

  /** A page and a page size written in decimal within the bounds are used as given. */
  lemma InRangeKept(page: int, pageSize: int)
    requires 1 <= page <= MaxInt64 && 1 <= pageSize <= MaxPageSize
    ensures var w := Normalize(Some(Decimal(page)), Some(Decimal(pageSize)));
      w.page == page && w.pageSize == pageSize
  {
    AtoiDecimal(page);
    AtoiDecimal(pageSize);
    assert Normalize(Some(Decimal(page)), Some(Decimal(pageSize))) == Clamp(page, pageSize);
  }

  /** The offset is the `int64` wrap of `(page-1)*pageSize`. */
  lemma OffsetIsWrappedProduct(pageParam: Option<string>, sizeParam: Option<string>)
    ensures var w := Normalize(pageParam, sizeParam);
      w.offset == Wrap64((w.page - 1) * w.pageSize)
  {
    var p := Atoi(QueryOr(pageParam, "1"));
    var z := Atoi(QueryOr(sizeParam, "20"));
    assert Normalize(pageParam, sizeParam) == Clamp(p, z);
  }

  /**
   * The offset is `(page-1)*pageSize`, and so at least 0, whenever that
   * product fits in `int64`.
   */
  lemma OffsetExact(pageParam: Option<string>, sizeParam: Option<string>)
    ensures var w := Normalize(pageParam, sizeParam);
      (w.page - 1) * w.pageSize <= MaxInt64 ==> w.offset == (w.page - 1) * w.pageSize && w.offset >= 0
  {
    var p := Atoi(QueryOr(pageParam, "1"));
    var z := Atoi(QueryOr(sizeParam, "20"));
    assert Normalize(pageParam, sizeParam) == Clamp(p, z);
    ClampOffsetExact(p, z);
  }

  lemma ClampOffsetExact(page: int, pageSize: int)
    ensures var w := Clamp(page, pageSize);
      (w.page - 1) * w.pageSize <= MaxInt64 ==> w.offset == (w.page - 1) * w.pageSize && w.offset >= 0
  {
    var w := Clamp(page, pageSize);
    MulMono(0, 0, w.page - 1, w.pageSize);
    var x := (w.page - 1) * w.pageSize;
    assert w.offset == Wrap64(x);
  }

  const HugePage: int := 4611686018427387904   // 2^62

  /**
   * As written, a large page wraps the offset: `page=4611686018427387904`
   * with the default page size gives `(2^62-1)*20 = 5*2^64 - 20`, which
   * wraps to the offset -20.
   */
  lemma OffsetWrapsNegative()
    ensures Normalize(Some(Decimal(HugePage)), None).offset == -20
  {
    AtoiDecimal(HugePage);
    DefaultTextsParse();
    HugeClampWraps();
    assert Normalize(Some(Decimal(HugePage)), None) == Clamp(HugePage, 20);
  }

  lemma HugeClampWraps()
    ensures Clamp(HugePage, 20) == Window(HugePage, 20, -20)
  {
    var x := (HugePage - 1) * 20;
    assert x == 92233720368547758060;
    assert Wrap64(x) == -20;
  }

  /** Twenty nines and then a letter: malformed, but too long to be read as 0. */
  const LongMalformedPage: string := "99999999999999999999x"

  /**
   * As written, the range check of `ParseUint` fires on the twentieth digit
   * before the scan reaches the letter, so `Atoi` returns MaxInt64 with an
   * error the handler drops; the offset `(2^63-2)*20 = 10*2^64 - 40` then
   * wraps to -40.
   */
  lemma LongMalformedPageWraps()
    ensures Atoi(LongMalformedPage) == MaxInt64
    ensures Normalize(Some(LongMalformedPage), None) == Window(MaxInt64, 20, -40)
  {
    DefaultTextsParse();
    LongMalformedOverflows();
    MaxPageClampWraps();
    assert Normalize(Some(LongMalformedPage), None) == Clamp(MaxInt64, 20);
  }

  lemma LongMalformedOverflows()
    ensures ParseUint(LongMalformedPage) == RangeError
  {
    NinesAreNines(19);
    assert LongMalformedPage == Nines(19) + "9x";
    NinesScan(19);
    Pow10Values();
    ScanPrefix(Nines(19), "9x", 0, Pow10(19) - 1);
  }

  /** k nines. */
  function Nines(k: nat): (s: string)
    ensures |s| == k
  {
    if k == 0 then [] else Nines(k - 1) + ['9']
  }

  lemma {:induction false} NinesAreNines(k: nat)
    ensures forall i :: 0 <= i < k ==> Nines(k)[i] == '9'
  {
    if k > 0 {
      NinesAreNines(k - 1);
    }
  }

  /** k nines read as 10^k - 1. */
  lemma {:induction false} NinesScan(k: nat)
    requires k <= 19
    ensures ScanDigits(Nines(k), 0) == Digits(Pow10(k) - 1)
  {
    if k > 0 {
      NinesScan(k - 1);
      Pow10Bound(k - 1);
      Pow10Bound(k);
      var m := Pow10(k - 1) - 1;
      assert m * 10 + DigitValue('9') == Pow10(k) - 1;
      ScanAppend(Nines(k - 1), '9', 0, m);
    }
  }

  /** A scan that reads a whole prefix carries its value on into the rest. */
  lemma {:induction false} ScanPrefix(p: string, q: string, acc: nat, m: nat)
    requires acc <= MaxUint64 && ScanDigits(p, acc) == Digits(m)
    ensures ScanDigits(p + q, acc) == ScanDigits(q, m)
    decreases |p|
  {
    if p != [] {
      assert (p + q)[0] == p[0];
      assert (p + q)[1..] == p[1..] + q;
      ScanPrefix(p[1..], q, acc * 10 + DigitValue(p[0]), m);
    } else {
      assert p + q == q;
    }
  }

  lemma MaxPageClampWraps()
    ensures Clamp(MaxInt64, 20) == Window(MaxInt64, 20, -40)
  {
    var x := (MaxInt64 - 1) * 20;
    assert x == 184467440737095516120;
    assert Wrap64(x) == -40;
  }

  /** The largest page whose offset fits in `int64` at the largest page size. */
  const MaxPage: int := MaxInt64 / MaxPageSize + 1

  /** Clamp as written, with the page also capped at MaxPage. */
  function ClampChecked(page: int, pageSize: int): (w: Window)
    ensures 1 <= w.page <= MaxPage && 1 <= w.pageSize <= MaxPageSize
    ensures w.offset == (w.page - 1) * w.pageSize
    ensures 0 <= w.offset <= MaxInt64
    ensures w.page == Clamp(page, pageSize).page || w.page == MaxPage
    ensures w.pageSize == Clamp(page, pageSize).pageSize
  {
    var page := if page < 1 then DefaultPage else if page > MaxPage then MaxPage else page;
    var pageSize := if pageSize < 1 || pageSize > MaxPageSize then DefaultPageSize else pageSize;
    MulMono(page - 1, pageSize, MaxPage - 1, MaxPageSize);
    Window(page, pageSize, (page - 1) * pageSize)
  }

  /**
   * The normalisation with the page also capped at MaxPage, so that the
   * offset is exactly `(page-1)*pageSize` and never negative.
   */
  function NormalizeChecked(pageParam: Option<string>, sizeParam: Option<string>): (w: Window)
    ensures 1 <= w.page <= MaxPage && 1 <= w.pageSize <= MaxPageSize
    ensures w.offset == (w.page - 1) * w.pageSize
    ensures 0 <= w.offset <= MaxInt64
  {
    ClampChecked(Atoi(QueryOr(pageParam, "1")), Atoi(QueryOr(sizeParam, "20")))
  }

  lemma MulMono(a: int, b: int, c: int, d: int)
    requires 0 <= a <= c && 0 <= b <= d
    ensures 0 <= a * b <= c * d
  {
    assert a * b <= c * b;
    assert c * b <= c * d;
  }

  /** Up to MaxPage the checked normalisation is the one the handlers run. */
  lemma CheckedAgreesBelowMaxPage(pageParam: Option<string>, sizeParam: Option<string>)
    requires Normalize(pageParam, sizeParam).page <= MaxPage
    ensures NormalizeChecked(pageParam, sizeParam) == Normalize(pageParam, sizeParam)
  {
    var p := Atoi(QueryOr(pageParam, "1"));
    var z := Atoi(QueryOr(sizeParam, "20"));
    assert Normalize(pageParam, sizeParam) == Clamp(p, z);
    assert NormalizeChecked(pageParam, sizeParam) == ClampChecked(p, z);
    ClampCheckedAgrees(p, z);
  }

  lemma ClampCheckedAgrees(page: int, pageSize: int)
    requires Clamp(page, pageSize).page <= MaxPage
    ensures ClampChecked(page, pageSize) == Clamp(page, pageSize)
  {
    var w := Clamp(page, pageSize);
    var x := (w.page - 1) * w.pageSize;
    MulMono(w.page - 1, w.pageSize, MaxPage - 1, MaxPageSize);
    assert MinInt64 <= x <= MaxInt64;
    assert w.offset == Wrap64(x) == x;
  }
}
