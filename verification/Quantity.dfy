/** Resource quantities: CPU in millicores and memory in bytes. */
module Quantity {

  datatype Option<T> = None | Some(value: T)

  const MAX_INT64 := 0x7fff_ffff_ffff_ffff
  const MIN_INT64 := -0x8000_0000_0000_0000

  // ------------------------------------------------ numbers as text

  predicate IsDigit(c: char) {
    '0' <= c <= '9'
  }

  predicate AllDigits(s: string) {
    forall i :: 0 <= i < |s| ==> IsDigit(s[i])
  }

  function Value(s: string): nat
    requires AllDigits(s)
  {
    if s == "" then 0 else Value(s[..|s| - 1]) * 10 + (s[|s| - 1] as int - '0' as int)
  }

  function FormatNat(n: nat): (s: string)
    ensures |s| > 0 && AllDigits(s) && Value(s) == n
  {
    var last := ('0' as int + n % 10) as char;
    if n < 10 then
      assert Value([last][..0]) == 0;
      [last]
    else
      var front := FormatNat(n / 10);
      assert (front + [last])[..|front|] == front;
      front + [last]
  }

  /** `strconv.FormatInt` in base 10. */
  function FormatInt(n: int): string {
    if n < 0 then "-" + FormatNat(-n) else FormatNat(n)
  }

  /** `strconv.ParseInt` in base 10 and 64 bits. */
  function ParseInt(s: string): (r: Option<int>)
    ensures r.Some? ==> MIN_INT64 <= r.value <= MAX_INT64
  {
    var negative := |s| > 0 && s[0] == '-';
    var digits := if |s| > 0 && (s[0] == '-' || s[0] == '+') then s[1..] else s;
    if digits == "" || !AllDigits(digits) then None
    else
      var m: int := Value(digits);
      var v := if negative then -m else m;
      if MIN_INT64 <= v <= MAX_INT64 then Some(v) else None
  }

  /** What `unicode.IsSpace` accepts. */
  predicate IsSpace(c: char) {
    || '\U{9}' <= c <= '\U{d}' || c == ' ' || c == '\U{85}' || c == '\U{a0}' || c == '\U{1680}'
    || '\U{2000}' <= c <= '\U{200a}' || c == '\U{2028}' || c == '\U{2029}' || c == '\U{202f}'
    || c == '\U{205f}' || c == '\U{3000}'
  }

  function TrimSpace(s: string): string {
    if s == "" then s
    else if IsSpace(s[0]) then TrimSpace(s[1..])
    else if IsSpace(s[|s| - 1]) then TrimSpace(s[..|s| - 1])
    else s
  }

  predicate EndsWith(s: string, suffix: string) {
    |suffix| <= |s| && s[|s| - |suffix|..] == suffix
  }

  function Without(s: string, suffix: string): string
    requires EndsWith(s, suffix)
  {
    s[..|s| - |suffix|]
  }

  // ------------------------------------------------ memory

  type Size = n: int | n > 0 witness 1

  datatype Unit = Unit(suffix: string, size: Size)

  const KI := 0x400
  const MI := 0x10_0000
  const GI := 0x4000_0000
  const TI := 0x100_0000_0000

  const MEMORY_SUFFIXES := [
    Unit("Ki", KI), Unit("Mi", MI), Unit("Gi", GI), Unit("Ti", TI),
    Unit("k", 1_000), Unit("K", 1_000), Unit("M", 1_000_000), Unit("G", 1_000_000_000), Unit("T", 1_000_000_000_000)]

  const BINARY_UNITS := [Unit("Ti", TI), Unit("Gi", GI), Unit("Mi", MI), Unit("Ki", KI)]

  /** The first unit of `units` whose suffix `s` has. */
  function UnitOf(s: string, units: seq<Unit>): (r: Option<Unit>)
    ensures r.Some? ==> r.value in units && EndsWith(s, r.value.suffix)
    ensures r.None? ==> forall u :: u in units ==> !EndsWith(s, u.suffix)
  {
    if units == [] then None
    else if EndsWith(s, units[0].suffix) then Some(units[0])
    else UnitOf(s, units[1..])
  }

  /** A count of `size` bytes each, unless there are too many. */
  function ParseCount(number: string, size: Size): (r: Option<int>)
    ensures r.Some? ==> 0 <= r.value
  {
    var n := ParseInt(number);
    if n.None? || n.value < 0 || n.value > MAX_INT64 / size then None else Some(Times(n.value, size))
  }

  function Times(n: nat, size: Size): nat {
    n * size
  }

  function ParseMemory(text: string): Option<int> {
    var s := TrimSpace(text);
    var u := UnitOf(s, MEMORY_SUFFIXES);
    if u.Some? then ParseCount(Without(s, u.value.suffix), u.value.size) else ParseCount(s, 1)
  }

  /** The first unit of `units` that divides `bytes`. */
  function Divisor(bytes: int, units: seq<Unit>): (r: Option<Unit>)
    ensures r.Some? ==> r.value in units && bytes % r.value.size == 0
    ensures r.None? ==> forall u :: u in units ==> bytes % u.size != 0
  {
    if units == [] then None
    else if bytes % units[0].size == 0 then Some(units[0])
    else Divisor(bytes, units[1..])
  }

  function FormatMemory(bytes: int): string {
    var u := if bytes != 0 then Divisor(bytes, BINARY_UNITS) else None;
    if u.Some? then FormatInt(bytes / u.value.size) + u.value.suffix else FormatInt(bytes)
  }

  predicate LargestFirst(units: seq<Unit>) {
    forall i, j :: 0 <= i < j < |units| ==> units[i].size > units[j].size
  }

  lemma {:induction false} DivisorIsLargest(bytes: int, units: seq<Unit>)
    requires LargestFirst(units)
    ensures var u := Divisor(bytes, units);
            u.Some? ==> forall v :: v in units && v.size > u.value.size ==> bytes % v.size != 0
  {
    if units != [] {
      DivisorIsLargest(bytes, units[1..]);
      forall v | v in units ensures v == units[0] || v in units[1..] {
      }
      forall v | v in units[1..] ensures v.size < units[0].size {
        var i :| 0 <= i < |units[1..]| && units[1..][i] == v;
        assert units[i + 1] == v;
      }
    }
  }

  /** The unit written: the largest of the four that divides the value, or bytes. */
  lemma LargestUnitIsWritten(bytes: int)
    ensures var u := Divisor(bytes, BINARY_UNITS);
            if u.Some? then
              bytes % u.value.size == 0 && forall v :: v in BINARY_UNITS && v.size > u.value.size ==> bytes % v.size != 0
            else forall v :: v in BINARY_UNITS ==> bytes % v.size != 0
  {
    DivisorIsLargest(bytes, BINARY_UNITS);
  }

  lemma {:induction false} FitsExactlyWhen(n: nat, size: Size)
    ensures n <= MAX_INT64 / size <==> Times(n, size) <= MAX_INT64
  {
    var q := MAX_INT64 / size;
    assert q * size <= MAX_INT64 < q * size + size;
    if n <= q {
      assert n * size <= q * size;
    } else {
      assert n * size >= (q + 1) * size;
    }
  }

  lemma {:induction false} CountsNeverOverflow(number: string, size: Size)
    ensures ParseCount(number, size).Some? ==> ParseCount(number, size).value <= MAX_INT64
    ensures ParseCount(number, size).Some? <==>
              var n := ParseInt(number); n.Some? && n.value >= 0 && Times(n.value, size) <= MAX_INT64
  {
    var n := ParseInt(number);
    if n.Some? && n.value >= 0 {
      FitsExactlyWhen(n.value, size);
    }
  }

  /** Whatever the text, what is read is an amount of 64 bits. */
  lemma ParsingNeverOverflows(text: string)
    ensures ParseMemory(text).Some? ==> 0 <= ParseMemory(text).value <= MAX_INT64
  {
    var s := TrimSpace(text);
    var u := UnitOf(s, MEMORY_SUFFIXES);
    if u.Some? {
      CountsNeverOverflow(Without(s, u.value.suffix), u.value.size);
    } else {
      CountsNeverOverflow(s, 1);
    }
  }

  lemma NumbersRoundTrip(n: nat)
    requires n <= MAX_INT64
    ensures ParseInt(FormatInt(n)) == Some(n)
  {
  }

  lemma NothingToTrim(s: string)
    requires |s| > 0 && !IsSpace(s[0]) && !IsSpace(s[|s| - 1])
    ensures TrimSpace(s) == s
  {
  }

  predicate EndsInLetter(suffix: string) {
    |suffix| > 0 && !IsDigit(suffix[|suffix| - 1])
  }

  lemma {:induction false} NumbersHaveNoSuffix(digits: string, units: seq<Unit>)
    requires AllDigits(digits) && forall i :: 0 <= i < |units| ==> EndsInLetter(units[i].suffix)
    ensures UnitOf(digits, units) == None
  {
  }

  /** No text can end in the one suffix and be read as having the other. */
  predicate ToldApart(u: string, v: string) {
    && |u| == 2 && |v| > 0
    && (v[|v| - 1] != u[1] || (|v| == 2 && v[0] != u[0]))
  }

  lemma {:induction false} OwnSuffixIsFound(digits: string, u: Unit, units: seq<Unit>)
    requires |u.suffix| == 2 && u in units
    requires forall i :: 0 <= i < |units| ==> units[i] == u || ToldApart(u.suffix, units[i].suffix)
    ensures UnitOf(digits + u.suffix, units) == Some(u)
  {
  }

  lemma BinarySuffixesAreToldApart(u: Unit)
    requires u in BINARY_UNITS
    ensures u in MEMORY_SUFFIXES && |u.suffix| == 2 && !IsSpace(u.suffix[1])
    ensures forall i :: 0 <= i < |MEMORY_SUFFIXES| ==>
              MEMORY_SUFFIXES[i] == u || ToldApart(u.suffix, MEMORY_SUFFIXES[i].suffix)
  {
  }

  /** A count with a binary suffix, or none, is read back as what it stands for. */
  lemma {:induction false} WrittenCountIsRead(n: nat, u: Unit)
    requires u in BINARY_UNITS && n <= MAX_INT64 && Times(n, u.size) <= MAX_INT64
    ensures ParseMemory(FormatNat(n) + u.suffix) == Some(Times(n, u.size))
  {
    var digits := FormatNat(n);
    BinarySuffixesAreToldApart(u);
    assert IsDigit(digits[0]);
    NothingToTrim(digits + u.suffix);
    OwnSuffixIsFound(digits, u, MEMORY_SUFFIXES);
    assert Without(digits + u.suffix, u.suffix) == digits;
    NumbersRoundTrip(n);
    FitsExactlyWhen(n, u.size);
  }

  lemma {:induction false} PlainCountIsRead(n: nat)
    requires n <= MAX_INT64
    ensures ParseMemory(FormatNat(n)) == Some(n)
  {
    var digits := FormatNat(n);
    assert IsDigit(digits[0]) && IsDigit(digits[|digits| - 1]);
    NothingToTrim(digits);
    NumbersHaveNoSuffix(digits, MEMORY_SUFFIXES);
    NumbersRoundTrip(n);
  }

  /** Every amount of memory survives being written and read. */
  lemma {:induction false} MemoryRoundTrips(bytes: nat)
    requires bytes <= MAX_INT64
    ensures ParseMemory(FormatMemory(bytes)) == Some(bytes)
  {
    var u := if bytes != 0 then Divisor(bytes, BINARY_UNITS) else None;
    if u.Some? {
      var n := Quotient(bytes, u.value.size);
      WrittenCountIsRead(n, u.value);
    } else {
      PlainCountIsRead(bytes);
    }
  }

  lemma Quotient(bytes: nat, size: Size) returns (n: nat)
    requires bytes % size == 0
    ensures n == bytes / size <= bytes && Times(n, size) == bytes
  {
    n := bytes / size;
    Whole(bytes, n, size, bytes % size);
  }

  lemma Whole(bytes: nat, n: nat, size: Size, rest: nat)
    requires bytes == size * n + rest && rest == 0
    ensures Times(n, size) == bytes && n <= bytes
  {
  }

  // ------------------------------------------------ CPU

  /** A core count is parsed as a floating-point number, which is not modelled. */
  datatype Cpu = Millicores(milli: int) | Cores(text: string) | Invalid

  function ParseCPU(text: string): Cpu {
    var s := TrimSpace(text);
    if !EndsWith(s, "m") then Cores(s)
    else
      var n := ParseInt(Without(s, "m"));
      if n.None? || n.value < 0 then Invalid else Millicores(n.value)
  }

  function FormatCPU(milli: int): string {
    FormatInt(milli) + "m"
  }

  /** Every CPU amount survives being written and read. */
  lemma CpuRoundTrips(milli: nat)
    requires milli <= MAX_INT64
    ensures ParseCPU(FormatCPU(milli)) == Millicores(milli)
  {
  }
}
