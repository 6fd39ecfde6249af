/** The density at which a guest runs a display HiDPI. Floating point is real arithmetic with any rounding
    of each literal and after each step, within the precision's relative error. */
module Hidpi {
  import opened Bytes
  import opened Options

  datatype Rounding = Rounding(single: real -> real, double: real -> real)

  /** Half a unit in the last place of single precision's 24 bits, and of double precision's 53. */
  const SINGLE: real := 1.0 / 16777216.0
  const DOUBLE: real := 1.0 / 9007199254740992.0

  predicate Near(x: real, y: real, error: real) {
    x - x * error <= y <= x + x * error
  }

  ghost predicate Faithful(r: Rounding) {
    && (forall x :: x >= 0.0 ==> Near(x, r.single(x), SINGLE))
    && (forall x :: x >= 0.0 ==> Near(x, r.double(x), DOUBLE))
  }

  /** The millimetres of an inch, as the literal 25.46 has them. */
  function Inch(r: Rounding): real { r.double(25.46) }

  /** To the nearest integer, halves up; 0 below. */
  function Round(x: real): nat {
    var n := (x + 0.5).Floor;
    if n < 0 then 0 else n
  }

  /** The width in millimetres a guest is told: in single precision, rounded. */
  function GuestMillimeters(r: Rounding, width: nat, ppi: nat): nat {
    var inch := Inch(r);
    var perMillimeter := if inch == 0.0 then 0.0 else r.single(r.double(ppi as real / inch));
    if perMillimeter == 0.0 then 0 // an infinite quotient, which no width below takes
    else
      var mm := r.double(r.single(r.single(width as real) / perMillimeter) + 0.5).Floor;
      if mm < 0 then 0 else mm
  }

  /** The millimetres are the quotient of width and pixels a millimetre, rounded but for the last sum's error. */
  lemma MillimetersRounded(r: Rounding, width: nat, ppi: nat)
    requires Faithful(r) && Inch(r) > 0.0 && r.single(r.double(ppi as real / Inch(r))) > 0.0
    requires r.single(r.single(width as real) / r.single(r.double(ppi as real / Inch(r)))) >= 0.0
    ensures var q := r.single(r.single(width as real) / r.single(r.double(ppi as real / Inch(r))));
            var mm := GuestMillimeters(r, width, ppi) as real;
            q - 0.5 - (q + 0.5) * DOUBLE < mm <= q + 0.5 + (q + 0.5) * DOUBLE
  {
    var q := r.single(r.single(width as real) / r.single(r.double(ppi as real / Inch(r))));
    assert Near(q + 0.5, r.double(q + 0.5), DOUBLE);
  }

  /** The whole centimetres it reads them as. */
  function GuestCentimeters(mm: nat): nat { (mm + 9) / 10 }

  /** Rounded up. */
  lemma CentimetersAre(mm: nat)
    ensures 10 * GuestCentimeters(mm) >= mm && 10 * GuestCentimeters(mm) < mm + 10
  {
  }

  /** The nearest integer, the upper of two as near. */
  lemma RoundIs(x: real)
    requires x >= 0.0
    ensures x - 0.5 < Round(x) as real <= x + 0.5
  {
  }

  /** Whether the scale the guest runs at is not known from its density. */
  predicate GuestScaleUnknown(r: Rounding, width: nat, ppi: nat) {
    var mm := GuestMillimeters(r, width, ppi);
    var cm := GuestCentimeters(mm);
    if cm == 0 || mm > 0xffff then true
    else if width * 35 >= 2021 * cm then width < 1920 || cm < 29
    else width > 3811 || width * 66 > 3811 * cm
  }

  /** The scale is known of a display the guest reads as `cm` wide, of 2021/35 pixels a centimetre or more, if it
      has 1920 and is 29 cm wide; of fewer, if it has at most 3811, and at most 3811/66 a centimetre. */
  lemma ScaleKnownIff(r: Rounding, width: nat, ppi: nat)
    ensures var mm := GuestMillimeters(r, width, ppi);
            var cm := (mm + 9) / 10;
            !GuestScaleUnknown(r, width, ppi)
            <==> && 1 <= mm <= 65535
                 && (35 * width >= 2021 * cm ==> width >= 1920 && cm >= 29)
                 && (35 * width < 2021 * cm ==> width <= 3811 && 66 * width <= 3811 * cm)
  {
    hide GuestMillimeters;
  }

  /** A density is given only at which the guest reads 2021/35 pixels a centimetre or more, and whose scale is
      known. */
  lemma GivenIsKnown(r: Rounding, width: nat)
    requires HidpiPpi(r, width).Some?
    ensures var ppi := HidpiPpi(r, width).value;
            && 35 * width >= 2021 * ((GuestMillimeters(r, width, ppi) + 9) / 10)
            && !GuestScaleUnknown(r, width, ppi)
  {
    hide GuestMillimeters, GuestScaleUnknown, Density;
  }

  function Density(r: Rounding, width: nat): nat {
    Round(r.double(r.double(width as real * Inch(r)) / 295.0))
  }

  function HidpiPpi(r: Rounding, width: nat): Option<nat> {
    if width < 1920 then None
    else
      var ppi := Density(r, width);
      var cm := GuestCentimeters(GuestMillimeters(r, width, ppi));
      if width * 35 >= 2021 * cm && !GuestScaleUnknown(r, width, ppi) then Some(ppi) else None
  }

  lemma QuotientBetween(a: real, c: real, low: real, high: real)
    requires c > 0.0 && low * c < a < high * c
    ensures low < a / c < high
  {
    var q := a / c;
    assert q * c == a;
    assert q <= low ==> q * c <= low * c;
    assert q >= high ==> q * c >= high * c;
  }

  lemma InchNear(r: Rounding)
    requires Faithful(r)
    ensures 25.4599999999 < Inch(r) < 25.4600000001
  {
    assert Near(25.46, r.double(25.46), DOUBLE);
  }

  /** A product and a quotient by the literal are near those by 25.46. */
  lemma ByInch(r: Rounding, x: real)
    requires Faithful(r) && x > 0.0
    ensures Near(x * 25.46, x * Inch(r), 0.00000001) && x * Inch(r) > 0.0
    ensures Inch(r) > 0.0 && Near(x / 25.46, x / Inch(r), 0.00000001) && x / Inch(r) > 0.0
  {
    InchNear(r);
    var inch := Inch(r);
    assert x * 25.4599999999 < x * inch < x * 25.4600000001;
    var q := x / 25.46;
    QuotientBetween(x, inch, q - q * 0.00000001, q + q * 0.00000001);
  }

  /** A product near the exact one, divided and rounded. */
  lemma RoundedNear(r: Rounding, x: real, product: real)
    requires Faithful(r) && x > 0.0 && Near(x * 25.46, product, 0.00000001)
    ensures var exact, ppi := x * 25.46 / 295.0, Round(r.double(r.double(product) / 295.0)) as real;
            exact - exact * 0.000001 - 0.5 <= ppi <= exact + exact * 0.000001 + 0.5
  {
    var p := r.double(product);
    assert Near(product, p, DOUBLE);
    var q := p / 295.0;
    assert Near(q, r.double(q), DOUBLE);
  }

  /** The density is half a dot off at most, but for rounding. */
  lemma DensityNear(r: Rounding, width: nat)
    requires Faithful(r) && width >= 1920
    ensures var exact, ppi := width as real * 25.46 / 295.0, Density(r, width) as real;
            exact - exact * 0.000001 - 0.5 <= ppi <= exact + exact * 0.000001 + 0.5
  {
    hide Inch, Near, Faithful;
    ByInch(r, width as real);
    RoundedNear(r, width as real, width as real * Inch(r));
  }

  /** The quotient is near 295 mm, whatever the rounding. */
  lemma MillimetersNear(r: Rounding, width: nat, ppi: nat)
    requires Faithful(r) && width >= 1920
    requires var exact := width as real * 25.46 / 295.0;
             exact - exact * 0.000001 - 0.5 <= ppi as real <= exact + exact * 0.000001 + 0.5
    ensures Inch(r) > 0.0
    ensures var c := r.single(r.double(ppi as real / Inch(r)));
            c > 0.0 && 293.9 < r.single(width as real) / c < 296.1
  {
    var w, p := width as real, ppi as real;
    ByInch(r, p);
    var b := p / Inch(r);
    assert Near(b, r.double(b), DOUBLE);
    var c := r.single(r.double(b));
    assert Near(r.double(b), c, SINGLE);
    var a := r.single(w);
    assert Near(w, a, SINGLE);
    assert w - w * 0.000001 <= a <= w + w * 0.000001;
    assert b - b * 0.000001 <= c <= b + b * 0.000001;
    QuotientBetween(a, c, 293.9, 296.1);
  }

  /** For every width of at least 1920, whatever the rounding, there is a density: the guest reads it as
      30 cm, and the scale it then runs at is known. */
  lemma DensityIsAccepted(r: Rounding, width: nat)
    requires Faithful(r) && 1920 <= width < U32
    ensures HidpiPpi(r, width) == Some(Density(r, width))
    ensures GuestCentimeters(GuestMillimeters(r, width, Density(r, width))) == 30
    ensures !GuestScaleUnknown(r, width, Density(r, width))
    ensures Density(r, width) < U32
  {
    var ppi := Density(r, width);
    DensityNear(r, width);
    MillimetersNear(r, width, ppi);
    var q := r.single(width as real) / r.single(r.double(ppi as real / Inch(r)));
    assert Near(q, r.single(q), SINGLE);
    var s := r.single(q) + 0.5;
    assert Near(s, r.double(s), DOUBLE);
    assert 294.0 < r.double(s) < 297.0;
  }

  /** There is a density for just the widths of at least 1920. */
  lemma HidpiIff(r: Rounding, width: nat)
    requires Faithful(r) && width < U32
    ensures HidpiPpi(r, width).Some? <==> width >= 1920
  {
    hide GuestScaleUnknown, GuestMillimeters, Density, Faithful;
    if width >= 1920 {
      DensityIsAccepted(r, width);
    }
  }
}
