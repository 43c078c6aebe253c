/**
 * Numeric literal suffixes.
 *
 * An integer literal may end in a sign marker ('i' or 'u') followed by a
 * width ("8", "16", "32", "64"); a float literal may end in 'f' followed by
 * a precision ("16", "32", "64").  The literal node constructors strip the
 * suffix from the lexeme and record the type it names.  The decision looks
 * only at the second- and third-from-last characters: the final character
 * of the lexeme is never inspected.
 */
module Literals {

  /** The width/signedness and precision tokens a literal can resolve to. */
  datatype NumType = I8 | I16 | I32 | I64 | U8 | U16 | U32 | U64 | F16 | F32 | F64

  predicate IsIntType(t: NumType) {
    !IsFloatType(t)
  }

  predicate IsFloatType(t: NumType) {
    t == F16 || t == F32 || t == F64
  }

  /** The literal text left after stripping, with the type its suffix named. */
  datatype Lit = Lit(text: string, ty: NumType)

  /** The suffix a programmer writes for each type. */
  function Spelling(t: NumType): string {
    match t
    case I8 => "i8"
    case I16 => "i16"
    case I32 => "i32"
    case I64 => "i64"
    case U8 => "u8"
    case U16 => "u16"
    case U32 => "u32"
    case U64 => "u64"
    case F16 => "f16"
    case F32 => "f32"
    case F64 => "f64"
  }

  /** `s` with its final character dropped. */
  function Inspected(s: string): string
    requires |s| > 0
  {
    s[..|s| - 1]
  }

  predicate IsSign(c: char) {
    c == 'i' || c == 'u'
  }

  /** The first digit of a 16-, 32- or 64-bit width. */
  predicate IsWidthDigit(c: char) {
    c == '1' || c == '3' || c == '6'
  }

  /** The integer rule tries a three-character suffix exactly when this holds. */
  predicate HasSignThirdFromLast(s: string) {
    |s| > 3 && IsSign(s[|s| - 3])
  }

  /** The integer rule strips a three-character suffix. */
  predicate IntThreeCharSuffix(s: string) {
    HasSignThirdFromLast(s) && IsWidthDigit(s[|s| - 2])
  }

  /** The integer rule strips a two-character (8-bit) suffix. */
  predicate IntTwoCharSuffix(s: string) {
    |s| > 2 && !HasSignThirdFromLast(s) && IsSign(s[|s| - 2])
  }

  /** The float rule strips a three-character suffix. */
  predicate FltSuffix(s: string) {
    |s| > 3 && s[|s| - 3] == 'f' && IsWidthDigit(s[|s| - 2])
  }

  /**
   * Integer literal suffix stripping, following the branches of the
   * integer literal constructor: a three-character test when the sign
   * marker is third from last, otherwise a two-character 8-bit test.
   */
  function ParseIntLit(s: string): (r: Lit)
    ensures IsIntType(r.ty)
    ensures |s| - |r.text| in {0, 2, 3}
    ensures r.text == s[..|r.text|]
    ensures |r.text| == |s| ==> r.ty == I32
    ensures |s| <= 2 ==> r == Lit(s, I32)
  {
    var n := |s|;
    if n > 2 then
      if n > 3 && (s[n - 3] == 'u' || s[n - 3] == 'i') then
        var signed := s[n - 3] == 'i';
        match s[n - 2]
        case '1' => Lit(s[..n - 3], if signed then I16 else U16)
        case '3' => Lit(s[..n - 3], if signed then I32 else U32)
        case '6' => Lit(s[..n - 3], if signed then I64 else U64)
        case _ => Lit(s, I32)
      else if s[n - 2] == 'u' || s[n - 2] == 'i' then
        Lit(s[..n - 2], if s[n - 2] == 'i' then I8 else U8)
      else
        Lit(s, I32)
    else
      Lit(s, I32)
  }

  /** Float literal suffix stripping; 64-bit is the default precision. */
  function ParseFltLit(s: string): (r: Lit)
    ensures IsFloatType(r.ty)
    ensures |s| - |r.text| in {0, 3}
    ensures r.text == s[..|r.text|]
    ensures |r.text| == |s| ==> r.ty == F64
  {
    var n := |s|;
    if n > 3 && s[n - 3] == 'f' then
      var size := s[n - 2];
      if size == '1' then Lit(s[..n - 3], F16)
      else if size == '3' then Lit(s[..n - 3], F32)
      else if size == '6' then Lit(s[..n - 3], F64)
      else Lit(s, F64)
    else
      Lit(s, F64)
  }

  /**
   * An integer literal is shortened exactly when it carries a recognised
   * three- or two-character suffix; the stripped characters, up to the
   * uninspected last one, spell the resolved type's suffix.
   */
  lemma IntLitStrip(s: string)
    ensures |ParseIntLit(s).text| < |s| <==> IntThreeCharSuffix(s) || IntTwoCharSuffix(s)
    ensures var r := ParseIntLit(s);
      |r.text| < |s| ==>
        |s| == |r.text| + |Spelling(r.ty)| &&
        Inspected(s) == r.text + Inspected(Spelling(r.ty))
  {
  }

  /**
   * With the sign marker third from last, the width digit decides: a
   * recognised digit strips three characters (signed exactly when the
   * marker is 'i'), any other keeps the text and the default type, and
   * the 8-bit rule is not tried.
   */
  lemma IntLitThreeChar(s: string)
    requires HasSignThirdFromLast(s)
    ensures var r := ParseIntLit(s);
      if IsWidthDigit(s[|s| - 2]) then
        r.text == s[..|s| - 3] && r.ty != I8 && r.ty != U8 &&
        Spelling(r.ty)[..2] == s[|s| - 3..|s| - 1] &&
        (r.ty in {I16, I32, I64} <==> s[|s| - 3] == 'i')
      else r == Lit(s, I32)
  {
  }

  /**
   * Without the sign marker third from last, a sign marker second from
   * last strips two characters and resolves to the 8-bit type of that
   * sign; otherwise nothing changes.
   */
  lemma IntLitTwoChar(s: string)
    requires |s| > 2 && !HasSignThirdFromLast(s)
    ensures var r := ParseIntLit(s);
      if IsSign(s[|s| - 2]) then
        r.text == s[..|s| - 2] && r.ty in {I8, U8} &&
        Spelling(r.ty)[0] == s[|s| - 2]
      else r == Lit(s, I32)
  {
  }

  /**
   * The final character takes no part in the decision: replacing it
   * changes neither the type nor how much is stripped.
   */
  lemma IntLitLastCharIgnored(s: string, c: char)
    requires |s| > 0
    ensures var a, b := ParseIntLit(s), ParseIntLit(Inspected(s) + [c]);
      a.ty == b.ty && |a.text| == |b.text| && (|a.text| < |s| ==> a.text == b.text)
  {
  }

  /**
   * Writing a type's suffix after a literal body and parsing it back gives
   * the body and that type.  An 8-bit suffix is read as such only when the
   * body does not itself end in a sign marker.
   */
  lemma IntLitRoundTrip(d: string, t: NumType)
    requires |d| > 0 && IsIntType(t)
    requires (t == I8 || t == U8) && |d| > 1 ==> !IsSign(d[|d| - 1])
    ensures ParseIntLit(d + Spelling(t)) == Lit(d, t)
  {
  }

  /**
   * A float literal is shortened exactly when it ends in 'f' and a
   * recognised precision digit followed by one more character; the
   * stripped characters, up to the last, spell the resolved precision.
   */
  lemma FltLitStrip(s: string)
    ensures |ParseFltLit(s).text| < |s| <==> FltSuffix(s)
    ensures var r := ParseFltLit(s);
      |r.text| < |s| ==>
        |s| == |r.text| + |Spelling(r.ty)| &&
        Inspected(s) == r.text + Inspected(Spelling(r.ty))
  {
  }

  /** The final character of a float literal takes no part in the decision. */
  lemma FltLitLastCharIgnored(s: string, c: char)
    requires |s| > 0
    ensures var a, b := ParseFltLit(s), ParseFltLit(Inspected(s) + [c]);
      a.ty == b.ty && |a.text| == |b.text| && (|a.text| < |s| ==> a.text == b.text)
  {
  }

  /** Every precision suffix written after a non-empty body parses back. */
  lemma FltLitRoundTrip(d: string, t: NumType)
    requires |d| > 0 && IsFloatType(t)
    ensures ParseFltLit(d + Spelling(t)) == Lit(d, t)
  {
  }

  /** Concrete lexemes and what the constructors make of them. */
  lemma LiteralExamples()
    ensures ParseIntLit("8") == Lit("8", I32)
    ensures ParseIntLit("16i") == Lit("16i", I32)
    ensures ParseIntLit("7i16") == Lit("7", I16)
    ensures ParseIntLit("7u64") == Lit("7", U64)
    ensures ParseIntLit("100u8") == Lit("100", U8)
    ensures ParseIntLit("5i1x") == Lit("5", I16)
    ensures ParseIntLit("9u7x") == Lit("9u7x", I32)
    ensures ParseIntLit("12x64") == Lit("12x64", I32)
    ensures ParseFltLit("3.14f64") == Lit("3.14", F64)
    ensures ParseFltLit("2.5f16") == Lit("2.5", F16)
    ensures ParseFltLit("2.5f8") == Lit("2.5f8", F64)
  {
  }
}
