/** The colour tables and rating classification of src/api_parsing/difficulty.rs, the
    version used by the daily submission list. */
module ApiDifficulty {

  import opened Rating

  type U32 = x: int | 0 <= x < 0x1_0000_0000

  /** `From<Color> for u32`: the embed accent colour as 0xRRGGBB. */
  function Rgb(c: Color): (r: U32)
    ensures r < 0x100_0000
  {
    match c
    case Black => 0x000000
    case Gray => 0x808080
    case Brown => 0x804000
    case Green => 0x008000
    case Cyan => 0x00c0c0
    case Blue => 0x0000ff
    case Yellow => 0xc0c000
    case Orange => 0xff8000
    case Red => 0xff0000
  }

  /** Distinct colours get distinct accents, and only `Black` is 0x000000. */
  lemma RgbInjective(a: Color, b: Color)
    ensures Rgb(a) == Rgb(b) <==> a == b
    ensures Rgb(a) == 0 <==> a == Black
  {
  }

  /** `From<Color> for String` (and `Display`, which writes the same string): one CJK glyph
      per colour; `Black` is `unreachable!()`, so it is excluded by the precondition. */
  function Glyph(c: Color): (r: string)
    requires c != Black
    ensures |r| == 1
  {
    if c == Gray then "灰"
    else if c == Brown then "茶"
    else if c == Green then "緑"
    else if c == Cyan then "水"
    else if c == Blue then "青"
    else if c == Yellow then "黄"
    else if c == Orange then "橙"
    else "赤"
  }

  /** Every rendered colour has its own glyph, and no glyph is a digit or a parenthesis. */
  lemma GlyphInjective(a: Color, b: Color)
    requires a != Black && b != Black
    ensures Glyph(a) == Glyph(b) <==> a == b
    ensures Glyph(a)[0] !in "0123456789()"
  {
  }

  /** `From<u32> for Color`: 400-wide half-open bands from `0..400` (Gray) up to `2800..` (Red). */
  function FromRating(val: U32): (r: Color)
    ensures r != Black
    ensures Rank(r) == if val >= 2800 then 8 else val / 400 + 1
  {
    if val < 400 then Gray
    else if val < 800 then Brown
    else if val < 1200 then Green
    else if val < 1600 then Cyan
    else if val < 2000 then Blue
    else if val < 2400 then Yellow
    else if val < 2800 then Orange
    else Red
  }

  /** A higher rating never gets a lower colour. */
  lemma FromRatingMonotone(a: U32, b: U32)
    requires a <= b
    ensures Rank(FromRating(a)) <= Rank(FromRating(b))
  {
  }

  /** Each band boundary 400, 800, ..., 2800 changes the colour to the next one. */
  lemma FromRatingBoundary(k: nat)
    requires 1 <= k <= 7
    ensures FromRating(400 * k) != FromRating(400 * k - 1)
    ensures Rank(FromRating(400 * k)) == Rank(FromRating(400 * k - 1)) + 1
  {
  }

  /** `normalize`: the identity (as a `u32` cast) from 400 up; below 400 the cast of the
      logistic quotient. */
  function Normalize(d: I64, logistic: Logistic): (r: U32)
    ensures 400 <= d < 0x1_0000_0000 ==> r == d
    ensures d < 400 && 0.0 <= logistic(d) < 400.0 ==> r < 400
  {
    if d >= 400 then d % 0x1_0000_0000
    else CastFloat(logistic(d), 0, 0xFFFF_FFFF)
  }

  /** `difficulty as u32` keeps only the low 32 bits of a rating of 2^32 or more. */
  lemma NormalizeTruncates(logistic: Logistic)
    ensures Normalize(0x1_0000_0000 + 2800, logistic) == 2800
    ensures FromRating(Normalize(0x1_0000_0000 + 100, logistic)) == Gray
  {
  }

  /** A rating below 400, whose logistic quotient lies in `[0, 400)`, is shown as Gray. */
  lemma LowRatingIsGray(d: I64, logistic: Logistic)
    requires d < 400 && 0.0 <= logistic(d) < 400.0
    ensures FromRating(Normalize(d, logistic)) == Gray
  {
  }
}
