/** Timestamps: `format` and `parse_offset`. */
module Stamps {
  import opened Wrappers
  import opened Calendar
  import opened StringOrder

  function Digit(n: nat): char
    requires n < 10
  {
    ['0', '1', '2', '3', '4', '5', '6', '7', '8', '9'][n]
  }

  predicate IsDigit(c: char) {
    '0' <= c <= '9'
  }

  function Value(c: char): nat
    requires IsDigit(c)
  {
    c as int - '0' as int
  }

  /** A number in decimal, without padding. */
  function Decimal(n: nat): string {
    if n < 10 then [Digit(n)] else Decimal(n / 10) + [Digit(n % 10)]
  }

  function Zeros(n: nat): string {
    seq(n, _ => '0')
  }

  /** `{:0width}`. */
  function Pad(n: int, width: nat): string {
    var sign := if n < 0 then "-" else "";
    var digits := Decimal(if n < 0 then -n else n);
    if |sign| + |digits| < width then sign + Zeros(width - |sign| - |digits|) + digits else sign + digits
  }

  const DAY := 86400

  function OffsetText(offset: int): string {
    var off := if offset < 0 then -offset else offset;
    (if offset < 0 then "-" else "+") + Pad(off / 3600, 2) + ":" + Pad(off % 3600 / 60, 2)
  }

  /** `format`, and with no offset `utc`. */
  function Format(epoch: int, offset: int): string {
    var t := epoch + offset;
    var secs := t % DAY;
    var d := CivilFromDays(t / DAY);
    Pad(d.year, 4) + "-" + Pad(d.month, 2) + "-" + Pad(d.day, 2) + " "
    + Pad(secs / 3600, 2) + ":" + Pad(secs % 3600 / 60, 2) + ":" + Pad(secs % 60, 2) + " "
    + OffsetText(offset)
  }

  /** `n` in exactly `w` digits. */
  function Digits(n: nat, w: nat): string {
    if w == 0 then "" else Digits(n / 10, w - 1) + [Digit(n % 10)]
  }

  function Power(w: nat): nat {
    if w == 0 then 1 else 10 * Power(w - 1)
  }

  lemma {:induction false} DigitsLength(n: nat, w: nat)
    ensures |Digits(n, w)| == w
  {
    if w > 0 {
      DigitsLength(n / 10, w - 1);
    }
  }

  lemma {:induction false} ZeroDigits(w: nat)
    ensures Digits(0, w) == Zeros(w)
  {
    if w > 0 {
      ZeroDigits(w - 1);
      assert Zeros(w) == Zeros(w - 1) + ['0'];
    }
  }

  /** A number that fits its width is padded to exactly that width. */
  lemma {:induction false} PadIsDigits(n: nat, w: nat)
    requires w > 0 && n < Power(w)
    ensures Pad(n, w) == Digits(n, w) && |Decimal(n)| <= w
    decreases w
  {
    if n < 10 {
      ZeroDigits(w - 1);
      assert Digits(n, w) == Zeros(w - 1) + [Digit(n)];
      if w == 1 {
        assert Zeros(0) + [Digit(n)] == [Digit(n)];
      }
    } else {
      assert w > 1;
      PadIsDigits(n / 10, w - 1);
      var a, z := Decimal(n / 10), Zeros(w - 1 - |Decimal(n / 10)|);
      assert "" + z + Decimal(n) == ("" + z + a) + [Digit(n % 10)];
      assert "" + Decimal(n) == ("" + a) + [Digit(n % 10)];
    }
  }

  /** The sign takes one place of the width. */
  lemma PadNegative(n: nat, w: nat)
    requires n > 0 && w > 0
    ensures Pad(-(n as int), w) == "-" + Pad(n, w - 1)
  {
    hide Decimal, Zeros;
    var d := Decimal(n);
    if 1 + |d| < w {
      Regroup(Zeros(w - 1 - |d|), d);
    } else {
      assert "" + d == d;
    }
  }

  lemma Regroup(z: string, d: string)
    ensures "-" + z + d == "-" + ("" + z + d)
  {
  }

  /** Numbers of one width sort as strings as they do as numbers, whatever follows them. */
  lemma {:induction false} DigitsOrder(a: nat, b: nat, w: nat, x: string, y: string)
    requires a < b < Power(w)
    ensures LessEq(Digits(a, w) + x, Digits(b, w) + y) && !LessEq(Digits(b, w) + y, Digits(a, w) + x)
  {
    hide LessEq, Digit;
    var p, q := Digits(a / 10, w - 1), Digits(b / 10, w - 1);
    var x', y' := [Digit(a % 10)] + x, [Digit(b % 10)] + y;
    assert Digits(a, w) + x == p + x' && Digits(b, w) + y == q + y';
    Shorter(b, w);
    Tenths(a);
    Tenths(b);
    if a / 10 == b / 10 {
      SmallerFirst(a % 10, b % 10, x, y);
      AfterCommon(p, x', y');
      AfterCommon(p, y', x');
    } else {
      DigitsOrder(a / 10, b / 10, w - 1, x', y');
    }
  }

  lemma SmallerFirst(i: nat, j: nat, x: string, y: string)
    requires i < j < 10
    ensures LessEq([Digit(i)] + x, [Digit(j)] + y) && !LessEq([Digit(j)] + y, [Digit(i)] + x)
  {
  }

  /** A list of numbers of fixed widths, each with what is printed after it. */
  datatype Field = Field(value: nat, width: nat, sep: string)

  function Text(fs: seq<Field>): string {
    if fs == [] then "" else Digits(fs[0].value, fs[0].width) + fs[0].sep + Text(fs[1..])
  }

  ghost predicate Alike(a: seq<Field>, b: seq<Field>) {
    && |a| == |b|
    && forall i :: 0 <= i < |a| ==>
      && a[i].width == b[i].width && a[i].sep == b[i].sep && a[i].value < Power(a[i].width)
      && b[i].value < Power(b[i].width)
  }

  /** The first field that differs decides. */
  predicate Before(a: seq<Field>, b: seq<Field>)
    requires |a| == |b|
  {
    a != [] && (a[0].value < b[0].value || (a[0].value == b[0].value && Before(a[1..], b[1..])))
  }

  lemma {:induction false} TextOrder(a: seq<Field>, b: seq<Field>, tail: string)
    requires Alike(a, b)
    ensures Before(a, b) ==> LessEq(Text(a) + tail, Text(b) + tail) && !LessEq(Text(b) + tail, Text(a) + tail)
    decreases |a|
  {
    hide Digits, Power, LessEq, Text;
    if a != [] {
      TextStep(a, tail);
      TextStep(b, tail);
      var p, q := Text(a[1..]) + tail, Text(b[1..]) + tail;
      var x, y := a[0].sep + p, b[0].sep + q;
      if a[0].value < b[0].value {
        DigitsOrder(a[0].value, b[0].value, a[0].width, x, y);
      } else if a[0].value == b[0].value {
        TextOrder(a[1..], b[1..], tail);
        AfterCommon(a[0].sep, p, q);
        AfterCommon(a[0].sep, q, p);
        AfterCommon(Digits(a[0].value, a[0].width), x, y);
        AfterCommon(Digits(a[0].value, a[0].width), y, x);
      }
    }
  }

  lemma TextStep(a: seq<Field>, tail: string)
    requires a != []
    ensures Text(a) + tail == Digits(a[0].value, a[0].width) + (a[0].sep + (Text(a[1..]) + tail))
  {
  }

  /** Years the four digits hold. */
  predicate Printable(t: int) {
    0 <= CivilFromDays(t / DAY).year <= 9999
  }

  /** The printed fields of the `t`th second of local time. */
  function Fields(t: int): seq<Field>
    requires Printable(t)
  {
    var secs := t % DAY;
    var d := CivilFromDays(t / DAY);
    [Field(d.year, 4, "-"), Field(d.month, 2, "-"), Field(d.day, 2, " "),
     Field(secs / 3600, 2, ":"), Field(secs % 3600 / 60, 2, ":"), Field(secs % 60, 2, " ")]
  }

  lemma Powers()
    ensures Power(2) == 100 && Power(4) == 10000
  {
    assert Power(1) == 10 && Power(3) == 10 * Power(2);
  }

  lemma FieldsFit(t: int)
    requires Printable(t)
    ensures forall i :: 0 <= i < 6 ==> Fields(t)[i].value < Power(Fields(t)[i].width)
  {
    hide CivilFromDays;
    Powers();
    Successor(t / DAY);
  }

  lemma TextOfSix(a: Field, b: Field, c: Field, d: Field, e: Field, f: Field)
    ensures Text([a, b, c, d, e, f]) ==
      Digits(a.value, a.width) + a.sep + Digits(b.value, b.width) + b.sep + Digits(c.value, c.width) + c.sep
      + Digits(d.value, d.width) + d.sep + Digits(e.value, e.width) + e.sep + Digits(f.value, f.width) + f.sep
  {
    hide Digits;
    assert [f][1..] == [];
    assert [e, f][1..] == [f];
    assert [d, e, f][1..] == [e, f];
    assert [c, d, e, f][1..] == [d, e, f];
    assert [b, c, d, e, f][1..] == [c, d, e, f];
    assert [a, b, c, d, e, f][1..] == [b, c, d, e, f];
    var t6 := Text([f]);
    assert Text([]) == "";
    assert t6 == Digits(f.value, f.width) + f.sep + "";
    var t5 := Text([e, f]);
    assert t5 == Digits(e.value, e.width) + e.sep + t6;
    var t4 := Text([d, e, f]);
    assert t4 == Digits(d.value, d.width) + d.sep + t5;
    var t3 := Text([c, d, e, f]);
    assert t3 == Digits(c.value, c.width) + c.sep + t4;
    var t2 := Text([b, c, d, e, f]);
    assert t2 == Digits(b.value, b.width) + b.sep + t3;
  }

  lemma FormatIsText(epoch: int, offset: int)
    requires Printable(epoch + offset)
    ensures Format(epoch, offset) == Text(Fields(epoch + offset)) + OffsetText(offset)
  {
    hide CivilFromDays, OffsetText, Text, Digits, Pad, Printable, Power;
    var t := epoch + offset;
    FieldPads(t);
    var fs := Fields(t);
    TextOfSix(fs[0], fs[1], fs[2], fs[3], fs[4], fs[5]);
    assert fs == [fs[0], fs[1], fs[2], fs[3], fs[4], fs[5]];
  }

  lemma FieldPads(t: int)
    requires Printable(t)
    ensures var secs, d := t % DAY, CivilFromDays(t / DAY);
      && d.year >= 0 && Pad(d.year, 4) == Digits(d.year, 4) && Pad(d.month, 2) == Digits(d.month, 2) &&
        Pad(d.day, 2) == Digits(d.day, 2)
      && Pad(secs / 3600, 2) == Digits(secs / 3600, 2) && Pad(secs % 3600 / 60, 2) == Digits(secs % 3600 / 60, 2)
      && Pad(secs % 60, 2) == Digits(secs % 60, 2)
  {
    hide CivilFromDays, Pad, Digits, Power;
    Powers();
    Successor(t / DAY);
    var secs, d := t % DAY, CivilFromDays(t / DAY);
    PadIsDigits(d.year, 4);
    PadIsDigits(d.month, 2);
    PadIsDigits(d.day, 2);
    PadIsDigits(secs / 3600, 2);
    PadIsDigits(secs % 3600 / 60, 2);
    PadIsDigits(secs % 60, 2);
  }

  /** Earlier seconds have earlier fields. */
  lemma FieldsOrder(s: int, t: int)
    requires s < t && Printable(s) && Printable(t)
    ensures Before(Fields(s), Fields(t))
  {
    hide CivilFromDays, Before;
    var a, b := Fields(s), Fields(t);
    if s / DAY == t / DAY {
      assert s % DAY < t % DAY;
    } else {
      assert s / DAY < t / DAY;
      Monotone(s / DAY, t / DAY);
    }
    if CivilFromDays(s / DAY) == CivilFromDays(t / DAY) {
      DaysOfDate(s / DAY);
      DaysOfDate(t / DAY);
      ClockOrder(s % DAY, t % DAY);
    }
    BeforeOfSix(a, b);
  }

  /** `Before`, spelled out for the six fields of a timestamp. */
  predicate SixBefore(a: seq<Field>, b: seq<Field>)
    requires |a| == |b| == 6
  {
    || a[0].value < b[0].value
    || (a[0].value == b[0].value && a[1].value < b[1].value)
    || (a[0].value == b[0].value && a[1].value == b[1].value && a[2].value < b[2].value)
    || (a[0].value == b[0].value && a[1].value == b[1].value && a[2].value == b[2].value && a[3].value < b[3].value)
    || (a[0].value == b[0].value && a[1].value == b[1].value && a[2].value == b[2].value && a[3].value == b[3].value
        && a[4].value < b[4].value)
    || (a[0].value == b[0].value && a[1].value == b[1].value && a[2].value == b[2].value && a[3].value == b[3].value
        && a[4].value == b[4].value && a[5].value < b[5].value)
  }

  lemma BeforeOfSix(a: seq<Field>, b: seq<Field>)
    requires |a| == |b| == 6
    ensures SixBefore(a, b) ==> Before(a, b)
  {
    OneBefore(a, b, 0);
    OneBefore(a, b, 1);
    OneBefore(a, b, 2);
    OneBefore(a, b, 3);
    OneBefore(a, b, 4);
    OneBefore(a, b, 5);
    assert a[0..] == a && b[0..] == b;
    hide Before;
  }

  lemma OneBefore(a: seq<Field>, b: seq<Field>, i: nat)
    requires |a| == |b| && i < |a|
    ensures Before(a[i..], b[i..]) <==>
      a[i].value < b[i].value || (a[i].value == b[i].value && Before(a[i + 1..], b[i + 1..]))
  {
    assert a[i..][1..] == a[i + 1..] && b[i..][1..] == b[i + 1..];
  }

  lemma ClockOrder(x: int, y: int)
    requires 0 <= x < y < DAY
    ensures x / 3600 < y / 3600 || (x / 3600 == y / 3600 &&
      (x % 3600 / 60 < y % 3600 / 60 || (x % 3600 / 60 == y % 3600 / 60 && x % 60 < y % 60)))
  {
    Clock(x);
    Clock(y);
    var h, m, k, n := x / 3600, x % 3600 / 60, y / 3600, y % 3600 / 60;
    assert h <= k;
    assert h == k ==> m <= n;
  }

  lemma Clock(x: int)
    requires 0 <= x < DAY
    ensures x == 3600 * (x / 3600) + 60 * (x % 3600 / 60) + x % 60 && 0 <= x % 3600 / 60 < 60
  {
    var r := x % 3600;
    assert x == 3600 * (x / 3600) + r && r == 60 * (r / 60) + r % 60;
    assert r % 60 == x % 60;
  }

  /** With one offset, and years of four digits, timestamps sort as strings as their epochs do as numbers. */
  lemma SortsAsEpochs(e: int, f: int, offset: int)
    requires Printable(e + offset) && Printable(f + offset)
    ensures LessEq(Format(e, offset), Format(f, offset)) <==> e <= f
    ensures Format(e, offset) == Format(f, offset) <==> e == f
  {
    hide Printable, Format, Fields, Text, OffsetText, CivilFromDays, Alike;
    TotalOrder(Format(e, offset), Format(f, offset));
    if e < f {
      StrictlyBefore(e, f, offset);
    } else if f < e {
      StrictlyBefore(f, e, offset);
    }
  }

  lemma StrictlyBefore(e: int, f: int, offset: int)
    requires Printable(e + offset) && Printable(f + offset) && e < f
    ensures LessEq(Format(e, offset), Format(f, offset)) && !LessEq(Format(f, offset), Format(e, offset))
  {
    hide *;
    FieldsAlike(e + offset, f + offset);
    var a, b := Fields(e + offset), Fields(f + offset);
    FormatIsText(e, offset);
    FormatIsText(f, offset);
    FieldsOrder(e + offset, f + offset);
    TextOrder(a, b, OffsetText(offset));
  }

  lemma FieldsAlike(s: int, t: int)
    requires Printable(s) && Printable(t)
    ensures Alike(Fields(s), Fields(t))
  {
    hide CivilFromDays, Power;
    FieldsFit(s);
    FieldsFit(t);
  }

  /** `i32::from_str`: an optional sign, then digits, within 32 bits. */
  function ParseI32(s: string): Option<int> {
    var negative := s != "" && s[0] == '-';
    var digits := if s != "" && (s[0] == '-' || s[0] == '+') then s[1..] else s;
    if digits == "" || exists c :: c in digits && !IsDigit(c) then None
    else
      var n: int := if negative then -(Number(digits) as int) else Number(digits);
      if FitsI32(n) then Some(n) else None
  }

  /** A sign in front of digits is read, and a plus sign changes nothing. */
  lemma SignsAreRead(digits: string)
    requires digits != "" && forall c :: c in digits ==> IsDigit(c)
    ensures ParseI32(digits) == if Number(digits) <= 2147483647 then Some(Number(digits)) else None
    ensures ParseI32("+" + digits) == ParseI32(digits)
    ensures ParseI32("-" + digits) == if Number(digits) <= 2147483648 then Some(-(Number(digits) as int)) else None
  {
    hide Number;
    assert digits[0] in digits;
    assert ("+" + digits)[1..] == digits && ("-" + digits)[1..] == digits;
  }

  function Number(s: string): nat
    requires forall c :: c in s ==> IsDigit(c)
  {
    if s == "" then 0 else 10 * Number(s[..|s| - 1]) + Value(s[|s| - 1])
  }

  function SplitColon(s: string): (string, string) {
    if s == "" then ("", "0")
    else if s[0] == ':' then ("", s[1..])
    else
      var (h, m) := SplitColon(s[1..]);
      ([s[0]] + h, m)
  }

  datatype BadOffset = NoSign | BadHours | BadMinutes | OutOfRange | Overflow

  const TWO_TO_THE_32 := 0x1_0000_0000

  predicate FitsI32(n: int) {
    -0x8000_0000 <= n < 0x8000_0000
  }

  /** What an `i32` holds of `n` when overflow is not checked. */
  function Wrap32(n: int): int {
    (n + 0x8000_0000) % TWO_TO_THE_32 - 0x8000_0000
  }

  /** `sign * (h * 3600 + m * 60)` in `i32`: an overflow wraps around, or panics when it is checked. */
  function OffsetOf(sign: int, h: int, m: int, checked: bool): Result<int, BadOffset> {
    var a, b := h * 3600, m * 60;
    var sum := Wrap32(a) + Wrap32(b);
    var offset := sign * Wrap32(sum);
    if checked && !(FitsI32(a) && FitsI32(b) && FitsI32(sum) && FitsI32(offset)) then Err(Overflow)
    else Ok(Wrap32(offset))
  }

  /** `parse_offset`, of a string already trimmed; `checked` in a build that checks for overflow. */
  function ParseOffset(s: string, checked: bool): Result<int, BadOffset> {
    if s == "z" || s == "Z" || s == "UTC" then Ok(0)
    else if s == "" || (s[0] != '+' && s[0] != '-') then Err(NoSign)
    else
      var (h, m) := SplitColon(s[1..]);
      match ParseI32(h)
      case None => Err(BadHours)
      case Some(hours) =>
        match ParseI32(m)
        case None => Err(BadMinutes)
        case Some(minutes) =>
          if hours > 14 || minutes > 59 then Err(OutOfRange)
          else OffsetOf(if s[0] == '+' then 1 else -1, hours, minutes, checked)
  }

  lemma {:induction false} DigitsRead(n: nat, w: nat)
    requires n < Power(w)
    ensures (forall c :: c in Digits(n, w) ==> IsDigit(c)) && Number(Digits(n, w)) == n && |Digits(n, w)| == w
  {
    if w > 0 {
      Shorter(n, w);
      DigitsRead(n / 10, w - 1);
      OneMoreDigit(Digits(n / 10, w - 1), n % 10);
      Tenths(n);
    }
  }

  lemma Shorter(n: nat, w: nat)
    requires w > 0 && n < Power(w)
    ensures n / 10 < Power(w - 1)
  {
    var p := Power(w - 1);
    assert n < 10 * p;
  }

  lemma Tenths(n: nat)
    ensures n == 10 * (n / 10) + n % 10
  {
  }

  lemma OneMoreDigit(s: string, k: nat)
    requires k < 10 && forall c :: c in s ==> IsDigit(c)
    ensures forall c :: c in s + [Digit(k)] ==> IsDigit(c)
    ensures Number(s + [Digit(k)]) == 10 * Number(s) + k
  {
    hide Value, Digit;
    var t := s + [Digit(k)];
    DigitValue(k);
    assert t[..|t| - 1] == s && t[|t| - 1] == Digit(k);
  }

  lemma TwoDigits(n: nat)
    requires n < 100
    ensures ParseI32(Digits(n, 2)) == Some(n) && |Digits(n, 2)| == 2 && IsDigit(Digits(n, 2)[0]) &&
      IsDigit(Digits(n, 2)[1])
  {
    hide Digits, Number;
    Powers();
    DigitsRead(n, 2);
    assert Digits(n, 2)[0] in Digits(n, 2) && Digits(n, 2)[1] in Digits(n, 2);
  }

  lemma SplitTwo(a: string, b: string)
    requires |a| == 2 && a[0] != ':' && a[1] != ':'
    ensures SplitColon(a + ":" + b) == (a, b)
  {
    var s := a + ":" + b;
    assert s[1..] == [a[1]] + ":" + b;
    assert s[1..][1..] == ":" + b;
    assert (":" + b)[1..] == b;
    assert SplitColon(":" + b) == ("", b);
    assert [a[1]] + "" == [a[1]];
    assert SplitColon(s[1..]) == ([a[1]], b);
    assert [a[0]] + [a[1]] == a;
  }

  /** A printed offset of whole minutes, up to 14:59 either way, is read back. */
  lemma OffsetReadsBack(offset: int, checked: bool)
    requires offset % 60 == 0 && -53940 <= offset <= 53940
    ensures ParseOffset(OffsetText(offset), checked) == Ok(offset) && |OffsetText(offset)| == 6
  {
    hide Digits, Pad, ParseI32, SplitColon, Power, OffsetOf;
    var off := if offset < 0 then -offset else offset;
    var h, m := off / 3600, off % 3600 / 60;
    Powers();
    PadIsDigits(h, 2);
    PadIsDigits(m, 2);
    TwoDigits(h);
    TwoDigits(m);
    var a, b := Digits(h, 2), Digits(m, 2);
    SplitTwo(a, b);
    var s := OffsetText(offset);
    assert s == (if offset < 0 then "-" else "+") + a + ":" + b;
    assert s[1..] == a + ":" + b && |s| == 6;
    assert off == h * 3600 + m * 60 && h <= 14 && m <= 59;
    SmallOffset(if offset < 0 then -1 else 1, h, m, checked);
    assert s[0] == if offset < 0 then '-' else '+';
  }

  /** Without a sign just three spellings are read, and they mean what the printed offset of UTC means. */
  lemma SignOrUtc(s: string, checked: bool)
    requires s == "" || (s[0] != '+' && s[0] != '-')
    ensures ParseOffset(s, checked) ==
      if s == "Z" || s == "z" || s == "UTC" then ParseOffset(OffsetText(0), checked) else Err(NoSign)
  {
    hide OffsetText;
    OffsetReadsBack(0, checked);
  }

  /** The epoch a printed timestamp names: its fields, less its offset. */
  function ReadEpoch(s: string, checked: bool): Option<int> {
    if |s| != 26 || exists i :: 0 <= i < 19 && i !in {4, 7, 10, 13, 16} && !IsDigit(s[i]) then None
    else
      assert forall c :: c in s[0..4] ==> IsDigit(c) by {
        forall c | c in s[0..4] ensures IsDigit(c) {
          var i :| 0 <= i < 4 && s[0..4][i] == c;
          assert s[i] == c;
        }
      }
      match ParseOffset(s[20..], checked)
      case Err(_) => None
      case Ok(o) =>
        var d := Date(Number(s[0..4]), Two(s, 5), Two(s, 8));
        Some(DaysFromCivil(d) * 86400 + Two(s, 11) * 3600 + Two(s, 14) * 60 + Two(s, 17) - o)
  }

  function Two(s: string, i: nat): nat
    requires i + 2 <= |s| && IsDigit(s[i]) && IsDigit(s[i + 1])
  {
    10 * Value(s[i]) + Value(s[i + 1])
  }

  lemma TwoValue(n: nat)
    requires n < 100
    ensures |Digits(n, 2)| == 2 && IsDigit(Digits(n, 2)[0]) && IsDigit(Digits(n, 2)[1]) && Two(Digits(n, 2), 0) == n
  {
    hide Value, Digit;
    DigitValue(n / 10);
    DigitValue(n % 10);
    assert n / 10 % 10 == n / 10;
    assert Digits(n / 10 / 10, 0) == "";
    assert Digits(n / 10, 1) == "" + [Digit(n / 10)];
    assert Digits(n, 2) == Digits(n / 10, 1) + [Digit(n % 10)];
  }

  lemma DigitValue(k: nat)
    requires k < 10
    ensures IsDigit(Digit(k)) && Value(Digit(k)) == k
  {
  }

  /** The places of a printed timestamp's fields. */
  lemma Places(s: string, y: string, mo: string, d: string, h: string, mi: string, se: string, o: string)
    requires |y| == 4 && |mo| == |d| == |h| == |mi| == |se| == 2 && |o| == 6
    requires s == y + "-" + mo + "-" + d + " " + h + ":" + mi + ":" + se + " " + o
    ensures |s| == 26 && s[0..4] == y && s[20..] == o
    ensures s[5] == mo[0] && s[6] == mo[1] && s[8] == d[0] && s[9] == d[1]
    ensures s[11] == h[0] && s[12] == h[1] && s[14] == mi[0] && s[15] == mi[1] && s[17] == se[0] && s[18] == se[1]
  {
  }

  /**
    What was printed is read back: the fields and the offset of a timestamp
    give its epoch again, for every year of four digits and every offset of
    whole minutes up to 14:59.
  */
  lemma ReadsEpochBack(epoch: int, offset: int, checked: bool)
    requires Printable(epoch + offset) && offset % 60 == 0 && -53940 <= offset <= 53940
    ensures ReadEpoch(Format(epoch, offset), checked) == Some(epoch)
  {
    hide CivilFromDays, OffsetText, Digits, Pad, Power, ParseOffset, DaysFromCivil, Number;
    var t := epoch + offset;
    var secs, d := t % DAY, CivilFromDays(t / DAY);
    var s := Format(epoch, offset);
    FieldPads(t);
    Successor(t / DAY);
    DaysOfDate(t / DAY);
    OffsetReadsBack(offset, checked);
    YearReads(d.year);
    TwoValue(d.month);
    TwoValue(d.day);
    TwoValue(secs / 3600);
    TwoValue(secs % 3600 / 60);
    TwoValue(secs % 60);
    Places(s, Digits(d.year, 4), Digits(d.month, 2), Digits(d.day, 2),
           Digits(secs / 3600, 2), Digits(secs % 3600 / 60, 2), Digits(secs % 60, 2), OffsetText(offset));
    forall i | 0 <= i < 4 ensures IsDigit(s[i]) {
      assert s[i] == s[0..4][i] && s[0..4][i] in Digits(d.year, 4);
    }
    assert t == DAY * (t / DAY) + secs;
    assert secs == secs / 3600 * 3600 + secs % 3600 / 60 * 60 + secs % 60;
  }

  lemma YearReads(y: nat)
    requires y <= 9999
    ensures |Digits(y, 4)| == 4 && (forall c :: c in Digits(y, 4) ==> IsDigit(c)) && Number(Digits(y, 4)) == y
  {
    Powers();
    DigitsRead(y, 4);
  }

  /** A second sign slips through the range check, so an offset the check lets through may be out of range. */
  lemma SignedDigitsSlipThrough(checked: bool)
    ensures ParseOffset("+-20", checked) == Ok(-72000)
  {
    assert "+-20"[1..] == "-20" && "-20"[1..] == "20" && "20"[1..] == "0" && "0"[1..] == "";
    assert ['0'] + "" == "0" && ['2'] + "0" == "20" && ['-'] + "20" == "-20";
    assert SplitColon("") == ("", "0");
    assert SplitColon("0") == ("0", "0");
    assert SplitColon("20") == ("20", "0");
    assert SplitColon("-20") == ("-20", "0");
    assert Number("2") == 2 by { assert "2"[..0] == ""; }
    assert Number("20") == 20 by { assert "20"[..1] == "2"; }
    assert Number("0") == 0 by { assert "0"[..0] == ""; }
    assert ParseI32("-20") == Some(-20);
    assert ParseI32("0") == Some(0);
  }

  /** It may even be in range by accident: this one wraps around to zero, or panics. */
  lemma HugeOffsetWraps()
    ensures ParseOffset("+-2147483648", false) == Ok(0) && ParseOffset("+-2147483648", true) == Err(Overflow)
  {
    HugeParts();
    hide ParseI32, SplitColon;
    WrapIs(-0x8000_0000 * 3600, 0, 1800);
    WrapFits(0);
  }

  lemma HugeParts()
    ensures SplitColon("+-2147483648"[1..]) == ("-2147483648", "0")
    ensures ParseI32("-2147483648") == Some(-0x8000_0000) && ParseI32("0") == Some(0)
  {
    hide SplitColon, ParseI32, Number;
    var n := "2147483648";
    TenDigits();
    assert n == ['2', '1', '4', '7', '4', '8', '3', '6', '4', '8'];
    assert "-" + n == "-2147483648" && "+-2147483648"[1..] == "-" + n;
    assert "0" == ['0'];
    Negated(n);
    Plain("0");
    NoColon("-" + n);
  }

  lemma Negated(n: string)
    requires n != "" && (forall c :: c in n ==> IsDigit(c)) && FitsI32(-(Number(n) as int))
    ensures ParseI32("-" + n) == Some(-(Number(n) as int))
  {
    hide Number;
    assert ("-" + n)[1..] == n;
  }

  lemma Plain(n: string)
    requires n != "" && (forall c :: c in n ==> IsDigit(c)) && FitsI32(Number(n))
    ensures ParseI32(n) == Some(Number(n))
  {
    hide Number;
    assert n[0] in n;
  }

  lemma TenDigits()
    ensures Number("2147483648") == 2147483648 && Number("0") == 0
  {
    assert "0"[..0] == "";
    assert "21474"[..4] == "2147" && "2147"[..3] == "214" && "214"[..2] == "21" && "21"[..1] == "2" && "2"[..0] == "";
    assert Number("2") == 2 && Number("21") == 21 && Number("214") == 214;
    assert Number("2147") == 2147 && Number("21474") == 21474;
    assert "214748"[..5] == "21474" && "2147483"[..6] == "214748" && "21474836"[..7] == "2147483";
    assert Number("214748") == 214748 && Number("2147483") == 2147483 && Number("21474836") == 21474836;
    assert "214748364"[..8] == "21474836" && "2147483648"[..9] == "214748364";
    assert Number("214748364") == 214748364;
  }

  /** A string without a colon has no minutes. */
  lemma {:induction false} NoColon(s: string)
    requires ':' !in s
    ensures SplitColon(s) == (s, "0")
  {
    if s != "" {
      assert s[0] != ':';
      NoColon(s[1..]);
      assert [s[0]] + s[1..] == s;
    }
  }

  /** Wrapping adds a multiple of 2^32, the only one that fits. */
  lemma WrapAdds(n: int) returns (k: int)
    ensures Wrap32(n) == n + k * TWO_TO_THE_32 && FitsI32(Wrap32(n))
  {
    k := -((n + 0x8000_0000) / TWO_TO_THE_32);
  }

  lemma WrapIs(n: int, x: int, k: int)
    requires FitsI32(x) && x == n + k * TWO_TO_THE_32
    ensures Wrap32(n) == x
  {
    var j := WrapAdds(n);
    assert (j - k) * TWO_TO_THE_32 == Wrap32(n) - x;
  }

  lemma WrapFits(n: int)
    requires FitsI32(n)
    ensures Wrap32(n) == n
  {
    WrapIs(n, n, 0);
  }

  /** Nothing overflows in an offset in range. */
  lemma SmallOffset(sign: int, h: int, m: int, checked: bool)
    requires (sign == 1 || sign == -1) && 0 <= h <= 14 && 0 <= m <= 59
    ensures OffsetOf(sign, h, m, checked) == Ok(sign * (h * 3600 + m * 60))
  {
    hide Wrap32;
    WrapFits(h * 3600);
    WrapFits(m * 60);
    WrapFits(h * 3600 + m * 60);
    WrapFits(sign * (h * 3600 + m * 60));
  }

  /** Both builds agree on an accepted offset whose parts do not overflow, and the checked one accepts no other. */
  lemma AcceptedIsSum(sign: int, h: int, m: int, checked: bool)
    requires (sign == 1 || sign == -1) && FitsI32(h) && FitsI32(m) && h <= 14 && m <= 59
    requires OffsetOf(sign, h, m, checked).Ok?
    ensures checked ==> OffsetOf(sign, h, m, checked).value == sign * (h * 3600 + m * 60)
    ensures OffsetOf(sign, h, m, checked).value == Wrap32(sign * (h * 3600 + m * 60))
  {
    hide Wrap32;
    var a, b := h * 3600, m * 60;
    var sum := Wrap32(a) + Wrap32(b);
    SumWraps(a, b);
    if checked {
      WrapFits(a);
      WrapFits(b);
      WrapFits(sum);
    }
    if sign == 1 {
      SumWraps(sum, 0);
      WrapFits(0);
      assert Wrap32(sign * Wrap32(sum)) == Wrap32(a + b);
    } else {
      NegationWraps(sum);
      NegationWraps(a + b);
      assert Wrap32(sign * Wrap32(sum)) == Wrap32(-(a + b));
    }
    if checked {
      WrapFits(sign * Wrap32(sum));
    }
  }

  lemma SumWraps(a: int, b: int)
    ensures Wrap32(Wrap32(a) + Wrap32(b)) == Wrap32(a + b)
  {
    hide Wrap32;
    var i := WrapAdds(a);
    var j := WrapAdds(b);
    var k := WrapAdds(a + b);
    WrapIs(Wrap32(a) + Wrap32(b), Wrap32(a + b), k - i - j);
  }

  lemma NegationWraps(n: int)
    ensures Wrap32(-Wrap32(n)) == Wrap32(-n)
  {
    hide Wrap32;
    var i := WrapAdds(n);
    var k := WrapAdds(-n);
    WrapIs(-Wrap32(n), Wrap32(-n), k + i);
  }

  predicate InRange(n: int) {
    -53940 <= n <= 53940
  }

  /** A wrapped sum is in range when it comes within it by whole turns. */
  lemma WrapInRange(n: int)
    ensures InRange(Wrap32(n)) <==> (n + 53940) % TWO_TO_THE_32 <= 2 * 53940
  {
    hide Wrap32;
    var k := WrapAdds(n);
    var q, r := (n + 53940) / TWO_TO_THE_32, (n + 53940) % TWO_TO_THE_32;
    assert n + 53940 == q * TWO_TO_THE_32 + r;
    if r <= 2 * 53940 {
      WrapIs(n, r - 53940, -q);
    }
    if InRange(Wrap32(n)) {
      RemainderIs(n + 53940, -k, Wrap32(n) + 53940);
    }
  }

  lemma RemainderIs(n: int, q: int, r: int)
    requires n == q * TWO_TO_THE_32 + r && 0 <= r < TWO_TO_THE_32
    ensures n % TWO_TO_THE_32 == r
  {
    var p := n / TWO_TO_THE_32;
    assert (q - p) * TWO_TO_THE_32 == n % TWO_TO_THE_32 - r;
  }

  lemma NegatedInRange(n: int)
    ensures InRange(Wrap32(-n)) <==> InRange(Wrap32(n))
  {
    hide Wrap32;
    NegationWraps(n);
    NegationWraps(-n);
    if InRange(Wrap32(n)) {
      WrapFits(-Wrap32(n));
    }
    if InRange(Wrap32(-n)) {
      WrapFits(-Wrap32(-n));
    }
  }

  /**
    Exactly when an accepted offset is one `format` can print. The check bounds
    the two parts from above only, so they must not be too far below zero; in a
    build that does not check for overflow they may also be so far below that
    the sum wraps around.
  */
  lemma InRangeExactly(s: string, checked: bool)
    requires ParseOffset(s, checked).Ok? && s != "z" && s != "Z" && s != "UTC"
    ensures var (h, m) := SplitColon(s[1..]);
      && ParseI32(h).Some? && ParseI32(m).Some?
      && var seconds := ParseI32(h).value * 3600 + ParseI32(m).value * 60;
        -53940 <= ParseOffset(s, checked).value <= 53940 <==>
          if checked then seconds >= -53940 else (seconds + 53940) % TWO_TO_THE_32 <= 2 * 53940
  {
    hide SplitColon, Number, OffsetOf, Wrap32;
    var (h, m) := SplitColon(s[1..]);
    var sign := if s[0] == '+' then 1 else -1;
    AcceptedIsSum(sign, ParseI32(h).value, ParseI32(m).value, checked);
    var seconds := ParseI32(h).value * 3600 + ParseI32(m).value * 60;
    WrapInRange(seconds);
    NegatedInRange(seconds);
    assert sign == -1 ==> sign * seconds == -seconds;
  }

  /** In particular it takes a sign of its own to leave the range, in either build. */
  lemma UnsignedIsInRange(s: string, checked: bool)
    requires ParseOffset(s, checked).Ok? && s != "z" && s != "Z" && s != "UTC"
    requires var (h, m) := SplitColon(s[1..]); h != "" && IsDigit(h[0]) && m != "" && IsDigit(m[0])
    ensures -53940 <= ParseOffset(s, checked).value <= 53940
  {
    hide SplitColon, Number, OffsetOf;
    InRangeExactly(s, checked);
  }
}
