/**
 * The human-readable order numbers the two order-creating controllers generate.
 * The clock and the random sources (`now()`, `Str::random`, `uniqid()`) are
 * parameters.
 */
module OrderNumbers {
  import opened Strings

  datatype Date = Date(year: nat, month: nat, day: nat)

  /** A calendar date in the range `Y` prints with four digits. */
  predicate ValidDate(d: Date) {
    1000 <= d.year <= 9999 && 1 <= d.month <= 12 && 1 <= d.day <= 31
  }

  /** Powers of ten, for digit counts. */
  function Pow10(k: nat): (p: nat)
    ensures p >= 1
  {
    if k == 0 then 1 else 10 * Pow10(k - 1)
  }

  /** A number below 10^k has at most k digits (k >= 1). */
  lemma {:induction false} NatToStringLength(n: nat, k: nat)
    requires 1 <= k && n < Pow10(k)
    ensures |NatToString(n)| <= k
  {
    if n >= 10 {
      assert Pow10(1) == 10;
      NatToStringLength(n / 10, k - 1);
    }
  }

  /** The digits of `n`, zero-padded on the left to `width`. */
  function Padded(n: nat, width: nat): (s: string)
    ensures forall i :: 0 <= i < |s| ==> IsDigit(s[i])
  {
    PadLeft(NatToString(n), width, '0')
  }

  /** A number below 10^width pads to exactly `width` digits. */
  lemma PaddedLength(n: nat, width: nat)
    requires 1 <= width && n < Pow10(width)
    ensures |Padded(n, width)| == width
  {
    NatToStringLength(n, width);
  }

  /** Leading zeros do not change the value of a digit string. */
  lemma {:induction false} DigitsValueLeadingZeros(z: string, s: string)
    requires forall i :: 0 <= i < |z| ==> z[i] == '0'
    requires forall i :: 0 <= i < |s| ==> IsDigit(s[i])
    ensures DigitsValue(z + s) == DigitsValue(s)
  {
    if |s| == 0 {
      assert z + s == z;
      if |z| > 0 {
        DigitsValueLeadingZeros(z[..|z| - 1], "");
        assert z[..|z| - 1] + "" == z[..|z| - 1];
      }
    } else {
      DigitsValueLeadingZeros(z, s[..|s| - 1]);
      assert (z + s)[..|z + s| - 1] == z + s[..|s| - 1];
    }
  }

  /** Reading a padded number back gives the number. */
  lemma PaddedValue(n: nat, width: nat)
    ensures DigitsValue(Padded(n, width)) == n
  {
    var d := NatToString(n);
    var p := Padded(n, width);
    DigitsValueOfNatToString(n);
    if |d| < width {
      assert p == p[..|p| - |d|] + d;
      DigitsValueLeadingZeros(p[..|p| - |d|], d);
    }
  }

  /** `now()->format("Ymd")`. */
  function Ymd(d: Date): string {
    Padded(d.year, 4) + Padded(d.month, 2) + Padded(d.day, 2)
  }

  /** Reading the year, month and day back out of `Ymd`. */
  function ParseYmd(s: string): Date
    requires |s| == 8 && forall i :: 0 <= i < 8 ==> IsDigit(s[i])
  {
    Date(DigitsValue(s[..4]), DigitsValue(s[4..6]), DigitsValue(s[6..]))
  }

  /** The three parts of a 4 + 2 + 2 character string are where they were put. */
  lemma SplitYmd(y: string, m: string, dd: string)
    requires |y| == 4 && |m| == 2 && |dd| == 2
    ensures var s := y + m + dd; s[..4] == y && s[4..6] == m && s[6..] == dd
  {
  }

  /** `Ymd` prints eight digits from which the date can be read back. */
  lemma YmdRoundTrip(d: Date)
    requires ValidDate(d)
    ensures |Ymd(d)| == 8 && forall i :: 0 <= i < 8 ==> IsDigit(Ymd(d)[i])
    ensures ParseYmd(Ymd(d)) == d
  {
    assert Pow10(2) == 100 && Pow10(4) == 10000;
    PaddedLength(d.year, 4);
    PaddedLength(d.month, 2);
    PaddedLength(d.day, 2);
    var y, m, dd := Padded(d.year, 4), Padded(d.month, 2), Padded(d.day, 2);
    SplitYmd(y, m, dd);
    assert forall i :: 0 <= i < 8 ==> IsDigit(Ymd(d)[i]) by {
      forall i | 0 <= i < 8 ensures IsDigit(Ymd(d)[i]) {
        if i < 4 { assert Ymd(d)[i] == y[i]; }
        else if i < 6 { assert Ymd(d)[i] == m[i - 4]; }
        else { assert Ymd(d)[i] == dd[i - 6]; }
      }
    }
    PaddedValue(d.year, 4);
    PaddedValue(d.month, 2);
    PaddedValue(d.day, 2);
  }

  /** Every order number the application generates starts with "ORD-". */
  predicate Generated(n: string) {
    "ORD-" <= n
  }

  /** CheckoutController: "ORD-" + date + "-" + ten random characters in upper case. */
  function CheckoutNumber(d: Date, random10: string): string {
    "ORD-" + Ymd(d) + "-" + ToUpper(random10)
  }

  /** OrderController: "ORD-" + `uniqid()` in upper case. */
  function StoreNumber(uniqid: string): string {
    "ORD-" + ToUpper(uniqid)
  }

  /** Where the parts of "ORD-" + eight characters + "-" + ten characters sit. */
  lemma NumberLayout(ymd: string, up: string)
    requires |ymd| == 8 && |up| == 10
    ensures var n := "ORD-" + ymd + "-" + up;
      && |n| == 23
      && n[..4] == "ORD-"
      && n[4..12] == ymd
      && n[12] == '-'
      && n[13..] == up
  {
  }

  /**
   * A checkout order number is "ORD-", eight digits, "-", and ten upper-case
   * letters or digits when `Str::random(10)` gives ten alphanumerics.
   */
  lemma CheckoutNumberShape(d: Date, random10: string)
    requires ValidDate(d)
    requires |random10| == 10 && forall i :: 0 <= i < 10 ==> IsAlnum(random10[i])
    ensures var n := CheckoutNumber(d, random10);
      && |n| == 23
      && Generated(n)
      && (forall i :: 4 <= i < 12 ==> IsDigit(n[i]))
      && n[12] == '-'
      && (forall i :: 13 <= i < 23 ==> IsDigit(n[i]) || IsUpper(n[i]))
      && n[4..12] == Ymd(d)
  {
    YmdRoundTrip(d);
    ToUpperShape(random10);
    var ymd, up := Ymd(d), ToUpper(random10);
    NumberLayout(ymd, up);
    var n := CheckoutNumber(d, random10);
    forall i | 4 <= i < 12 ensures IsDigit(n[i]) {
      assert n[i] == n[4..12][i - 4];
    }
    forall i | 13 <= i < 23 ensures IsDigit(n[i]) || IsUpper(n[i]) {
      assert n[i] == n[13..][i - 13];
    }
  }

  /** Both generators produce numbers starting with "ORD-". */
  lemma GeneratedNumbers(d: Date, random10: string, uniqid: string)
    ensures Generated(CheckoutNumber(d, random10))
    ensures Generated(StoreNumber(uniqid))
  {
  }

  /** OrderController::show names the gateway transaction "order-{id}-{time}". */
  function GatewayOrderId(orderId: nat, time: nat): string {
    "order-" + NatToString(orderId) + "-" + NatToString(time)
  }

  /** The gateway id the webhook's parser is written for: "{order_number}-{timestamp}". */
  function IntendedGatewayOrderId(orderNumber: string, time: nat): string {
    orderNumber + "-" + NatToString(time)
  }

  /** A gateway id as `show` builds it is never an order number the application generates. */
  lemma GatewayOrderIdNotGenerated(orderId: nat, time: nat)
    ensures !Generated(GatewayOrderId(orderId, time))
  {
    assert GatewayOrderId(orderId, time)[1] == 'r';
  }
}
