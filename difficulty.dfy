/** The colour tables and rating classification of src/difficulty.rs, the version used by
    src/notify.rs; it differs from src/api_parsing/difficulty.rs only in its integer types
    (`isize`/`usize`) and in classifying with a free function `color`. */
module Difficulty {

  import opened Rating
  import ApiDifficulty

  type USize = x: int | 0 <= x < 0x1_0000_0000_0000_0000

  /** `From<Color> for u32`. */
  function Rgb(c: Color): (r: int)
    ensures 0 <= r < 0x100_0000
  {
    match c
    case Black => 0x000000
    case Gray => 0x808080
    case Brown => 0x804000
    case Green => 0x008000
    case Cyan => 0x00c0c0
    case Blue => 0x0000ff
    case Yellow => 0xc0c000
    case Orange => 0xff8000
    case Red => 0xff0000
  }

  /** `From<Color> for String`; `Black` is `unreachable!()`. */
  function Glyph(c: Color): (r: string)
    requires c != Black
    ensures |r| == 1
  {
    if c == Gray then "灰"
    else if c == Brown then "茶"
    else if c == Green then "緑"
    else if c == Cyan then "水"
    else if c == Blue then "青"
    else if c == Yellow then "黄"
    else if c == Orange then "橙"
    else "赤"
  }

  /** Both tables agree entry for entry with src/api_parsing/difficulty.rs, so they are
      injective too and map only `Black` to 0x000000. */
  lemma TablesAgreeWithApi(c: Color)
    ensures Rgb(c) == ApiDifficulty.Rgb(c)
    ensures c != Black ==> Glyph(c) == ApiDifficulty.Glyph(c)
    ensures Rgb(c) == 0 <==> c == Black
  {
  }

  lemma RgbInjective(a: Color, b: Color)
    ensures Rgb(a) == Rgb(b) <==> a == b
  {
    TablesAgreeWithApi(a);
    TablesAgreeWithApi(b);
    ApiDifficulty.RgbInjective(a, b);
  }

  /** `color`: total on `usize`, never `Black`, 400-wide bands ending in `2800..` (Red). */
  function ColorOf(n: USize): (r: Color)
    ensures r != Black
    ensures Rank(r) == if n >= 2800 then 8 else n / 400 + 1
  {
    if n < 400 then Gray
    else if n < 800 then Brown
    else if n < 1200 then Green
    else if n < 1600 then Cyan
    else if n < 2000 then Blue
    else if n < 2400 then Yellow
    else if n < 2800 then Orange
    else Red
  }

  lemma ColorOfMonotone(a: USize, b: USize)
    requires a <= b
    ensures Rank(ColorOf(a)) <= Rank(ColorOf(b))
  {
  }

  lemma ColorOfBoundary(k: nat)
    requires 1 <= k <= 7
    ensures ColorOf(400 * k) != ColorOf(400 * k - 1)
  {
  }

  /** On the ratings both versions accept, `color` is `From<u32> for Color`. */
  lemma ColorOfAgreesWithApi(n: ApiDifficulty.U32)
    ensures ColorOf(n) == ApiDifficulty.FromRating(n)
  {
    assert Rank(ColorOf(n)) == Rank(ApiDifficulty.FromRating(n));
    DeclarationOrder(ColorOf(n), ApiDifficulty.FromRating(n));
  }

  /** `normalize`: `difficulty as usize` from 400 up (never truncating, since `isize`
      values fit), below 400 the cast of the logistic quotient. */
  function Normalize(d: I64, logistic: Logistic): (r: USize)
    ensures d >= 400 ==> r == d
    ensures d < 400 && 0.0 <= logistic(d) < 400.0 ==> r < 400
  {
    if d >= 400 then d
    else CastFloat(logistic(d), 0, 0xFFFF_FFFF_FFFF_FFFF)
  }

  lemma LowRatingIsGray(d: I64, logistic: Logistic)
    requires d < 400 && 0.0 <= logistic(d) < 400.0
    ensures ColorOf(Normalize(d, logistic)) == Gray
  {
  }
}
