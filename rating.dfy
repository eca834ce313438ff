/** The difficulty colour scale shared by every version of the bot: a nine-value enum whose
    derived `Ord` follows declaration order, with `Black` standing for "no rating known". */
module Rating {

  datatype Color = Black | Gray | Brown | Green | Cyan | Blue | Yellow | Orange | Red

  /** Position in declaration order, which is what `#[derive(PartialOrd, Ord)]` compares. */
  function Rank(c: Color): (r: nat)
    ensures r <= 8
  {
    match c
    case Black => 0
    case Gray => 1
    case Brown => 2
    case Green => 3
    case Cyan => 4
    case Blue => 5
    case Yellow => 6
    case Orange => 7
    case Red => 8
  }

  /** The colour at position `r`. */
  function ColorAt(r: nat): (c: Color)
    requires r <= 8
    ensures Rank(c) == r
  {
    [Black, Gray, Brown, Green, Cyan, Blue, Yellow, Orange, Red][r]
  }

  /** The derived `<`. */
  predicate Less(a: Color, b: Color) {
    Rank(a) < Rank(b)
  }

  /** The derived order is a strict total order whose least element is `Black` and whose
      greatest is `Red`, listed in declaration order. */
  lemma DeclarationOrder(a: Color, b: Color)
    ensures a == b <==> Rank(a) == Rank(b)
    ensures a != b ==> Less(a, b) || Less(b, a)
    ensures a != Black ==> Less(Black, a)
    ensures a != Red ==> Less(a, Red)
    ensures forall i, j :: 0 <= i < j <= 8 ==> Less(ColorAt(i), ColorAt(j))
  {
  }

  /** `Ord::max` of two colours. */
  function Max(a: Color, b: Color): (r: Color)
    ensures r == a || r == b
    ensures Rank(a) <= Rank(r) && Rank(b) <= Rank(r)
  {
    if Rank(a) <= Rank(b) then b else a
  }

  /** `iter.max().unwrap()`: defined on non-empty sequences only, because `unwrap` of the
      empty iterator's `None` panics. */
  function MaxOf(cs: seq<Color>): (r: Color)
    requires |cs| > 0
    ensures r in cs
    ensures forall i :: 0 <= i < |cs| ==> Rank(cs[i]) <= Rank(r)
    decreases |cs|
  {
    if |cs| == 1 then cs[0] else Max(cs[0], MaxOf(cs[1..]))
  }

  /** The largest colour is `Black` exactly when every colour is `Black`. */
  lemma MaxOfBlack(cs: seq<Color>)
    requires |cs| > 0
    ensures MaxOf(cs) == Black <==> forall i :: 0 <= i < |cs| ==> cs[i] == Black
  {
    var m := MaxOf(cs);
    if m == Black {
      forall i | 0 <= i < |cs| ensures cs[i] == Black {
        assert Rank(cs[i]) <= Rank(m);
      }
    }
  }

  /** The sub-400 branch of every `normalize` computes `400.0 / (1.0 + (1.0 - d / 400.0).exp())`
      in `f64`. Floating point and `exp` are not modelled: callers supply that quotient, for
      each rating, as this function. */
  type Logistic = int -> real

  /** Rust's `i64` (also `isize` on the 64-bit targets the bot runs on). */
  type I64 = x: int | -0x8000_0000_0000_0000 <= x < 0x8000_0000_0000_0000

  /** Rust's `f as T` from a float to an integer type with range `[lo, hi]`: rounds toward
      zero and saturates at the bounds. */
  function CastFloat(x: real, lo: int, hi: int): (r: int)
    requires lo <= 0 <= hi
    ensures lo <= r <= hi
    ensures 0.0 <= x < hi as real ==> r as real <= x < (r + 1) as real
    ensures x < 0.0 ==> r <= 0
    ensures x >= hi as real ==> r == hi
  {
    if x >= hi as real then hi
    else if x <= lo as real then lo
    else if x >= 0.0 then x.Floor
    else -((-x).Floor)
  }
}
