/** The type codec: how a scalar is turned into a stored string plus a type
    tag, how `type_conversion` turns it back, and how a sequence is stored as
    a plain value list plus a representation tag. */
module Codec {
  import opened Outcomes

  /** A scalar attribute value, by its Python runtime type. A float is an
      opaque token (its text); any other object is its type name and text. */
  datatype Value =
    | Str(s: string)
    | Int(i: int)
    | Bool(b: bool)
    | Float(text: string)
    | Other(typeName: string, text: string)

  /** The tags `type_conversion` knows how to decode. */
  const KnownTags: set<string> := {"str", "float", "int", "bool"}

  /** `type(value).__name__`, the tag written beside each scalar. */
  function TypeTag(v: Value): (t: string)
    ensures t in KnownTags <==> !v.Other? || v.typeName in KnownTags
  {
    match v
    case Str(_) => "str"
    case Int(_) => "int"
    case Bool(_) => "bool"
    case Float(_) => "float"
    case Other(name, _) => name
  }

  /** The string form the scalar takes in the text column: Python's `str()`. */
  function Text(v: Value): (t: string)
    ensures v.Int? ==> ParseInt(t) == Some(v.i)
    ensures v.Bool? ==> t != ""
  {
    match v
    case Str(s) => s
    case Int(i) => IntDecimalRoundTrip(i); IntToDecimal(i)
    case Bool(b) => if b then "True" else "False"
    case Float(t) => t
    case Other(_, t) => t
  }

  predicate IsDigit(c: char) { '0' <= c <= '9' }

  predicate AllDigits(s: string) { forall k :: 0 <= k < |s| ==> IsDigit(s[k]) }

  function DigitChar(d: nat): (c: char)
    requires d < 10
    ensures IsDigit(c) && c as int - '0' as int == d
  {
    "0123456789"[d]
  }

  /** Decimal digits of `n` with no leading zero, as `str(n)` writes them. */
  function NatToDecimal(n: nat): (s: string)
    ensures |s| > 0 && AllDigits(s)
    ensures |s| > 1 ==> s[0] != '0'
    decreases n
  {
    if n < 10 then [DigitChar(n)] else NatToDecimal(n / 10) + [DigitChar(n % 10)]
  }

  /** `str(i)`: a minus sign exactly when `i` is negative, then the digits
      of its magnitude. */
  function IntToDecimal(i: int): (s: string)
    ensures |s| > 0 && (s[0] == '-' <==> i < 0)
    ensures AllDigits(if i < 0 then s[1..] else s) && |s| > (if i < 0 then 1 else 0)
  {
    if i < 0 then "-" + NatToDecimal(-i) else NatToDecimal(i)
  }

  /** The number a string of decimal digits denotes. */
  function DigitsValue(s: string): nat
    requires AllDigits(s)
  {
    if s == [] then 0
    else DigitsValue(s[..|s| - 1]) * 10 + (s[|s| - 1] as int - '0' as int)
  }

  /** An unsigned run of decimal digits; `None` on anything else, the empty
      string included. */
  function ParseDigits(t: string): Option<nat>
  {
    if |t| > 0 && AllDigits(t) then Some(DigitsValue(t)) else None
  }

  /** `int(s)` on an optionally signed string of decimal digits; `None` where
      Python raises ValueError. */
  function ParseInt(s: string): (r: Option<int>)
    ensures r.Some? ==> |s| > 0 && (IsDigit(s[0]) || s[0] == '-' || s[0] == '+') && AllDigits(s[1..])
    ensures |s| > 0 && AllDigits(s) ==> r == Some(DigitsValue(s))
    ensures r.Some? && r.value < 0 ==> s[0] == '-'
  {
    if |s| > 0 && (s[0] == '-' || s[0] == '+') then
      match ParseDigits(s[1..])
      case Some(n) => Some(if s[0] == '-' then 0 - n else n)
      case None => None
    else ParseDigits(s)
  }

  /** `type_conversion(value_str, value_type)`: dispatch on the stored tag. */
  function TypeConversion(valueStr: string, valueType: string): (r: Result<Value>)
    ensures r.Ok? ==> valueType in KnownTags && TypeTag(r.value) == valueType
    ensures r == Err(TypeError(valueType)) <==> valueType !in KnownTags
    ensures valueType in {"str", "float", "bool"} ==> r.Ok?
  {
    if valueType == "str" then Ok(Str(valueStr))
    else if valueType == "float" then Ok(Float(valueStr))
    else if valueType == "int" then
      match ParseInt(valueStr)
      case Some(i) => Ok(Int(i))
      case None => Err(ValueError(valueStr))
    else if valueType == "bool" then Ok(Bool(|valueStr| > 0))
    else Err(TypeError(valueType))
  }

  /** Decoding fails only with TypeError (unknown tag) or ValueError (text
      that is not an integer). */
  lemma DecodeErrors(valueStr: string, valueType: string)
    ensures TypeConversion(valueStr, valueType).Err? ==>
              || TypeConversion(valueStr, valueType) == Err(TypeError(valueType))
              || TypeConversion(valueStr, valueType) == Err(ValueError(valueStr))
  {
  }

  /** The digits `str` writes for a natural number read back to it. */
  lemma {:induction false} NatDecimalRoundTrip(n: nat)
    ensures DigitsValue(NatToDecimal(n)) == n
    decreases n
  {
    if n >= 10 {
      var s := NatToDecimal(n);
      assert s[..|s| - 1] == NatToDecimal(n / 10);
      NatDecimalRoundTrip(n / 10);
    }
  }

  /** The digits `str` writes for a natural number parse back to it. */
  lemma DigitsParseRoundTrip(n: nat)
    ensures ParseDigits(NatToDecimal(n)) == Some(n)
  {
    NatDecimalRoundTrip(n);
  }

  /** A minus sign before a run of digits negates what the digits parse to. */
  lemma ParseNegated(t: string, n: nat)
    requires ParseDigits(t) == Some(n)
    ensures ParseInt("-" + t) == Some(0 - n)
  {
    var s := "-" + t;
    assert s[1..] == t;
  }

  /** `str` of a non-negative number parses back to it. */
  lemma NatParseRoundTrip(i: int)
    requires 0 <= i
    ensures ParseInt(IntToDecimal(i)) == Some(i)
  {
    var t := NatToDecimal(i);
    assert IsDigit(t[0]);
    DigitsParseRoundTrip(i);
  }

  /** `str` of a negative number, a minus sign before the digits of its
      magnitude, parses back to it. */
  lemma NegativeParseRoundTrip(i: int)
    requires i < 0
    ensures ParseInt(IntToDecimal(i)) == Some(i)
  {
    var n: nat := -i;
    var t := NatToDecimal(n);
    assert IntToDecimal(i) == "-" + t;
    DigitsParseRoundTrip(n);
    ParseNegated(t, n);
  }

  /** `int(str(i)) == i` for every integer. */
  lemma IntDecimalRoundTrip(i: int)
    ensures ParseInt(IntToDecimal(i)) == Some(i)
  {
    if i < 0 {
      NegativeParseRoundTrip(i);
    } else {
      NatParseRoundTrip(i);
    }
  }

  /** What a scalar becomes after being written and read back: strings, ints
      and floats come back as they were; every bool comes back true, since
      bool decoding is the truthiness of the non-empty text; a value whose
      type name is outside the closed set fails with TypeError naming it. */
  lemma DecodeEncode(v: Value)
    ensures v.Str? || v.Int? || v.Float? ==> TypeConversion(Text(v), TypeTag(v)) == Ok(v)
    ensures v.Bool? ==> TypeConversion(Text(v), TypeTag(v)) == Ok(Bool(true))
    ensures v.Other? && v.typeName !in KnownTags ==>
              TypeConversion(Text(v), TypeTag(v)) == Err(TypeError(v.typeName))
    ensures !v.Other? ==> TypeConversion(Text(v), TypeTag(v)).Ok?
  {
  }

  /** Bool decoding is string truthiness: only the empty string is false. */
  lemma BoolIsTruthiness(s: string)
    ensures TypeConversion(s, "bool") == Ok(Bool(s != ""))
    ensures TypeConversion("False", "bool") == Ok(Bool(true))
  {
  }

  /** A sequence attribute: a pandas Series (its index is not modelled) or
      any other sequence of numbers. */
  datatype SeqValue = Series(values: seq<real>) | List(values: seq<real>)

  /** The value list and representation tag a sequence is stored as. */
  function Normalize(s: SeqValue): (r: (seq<real>, string))
    ensures r.0 == s.values
    ensures r.1 in {"series", "list"}
    ensures Denormalize(r.0, r.1) == s
  {
    match s
    case Series(vs) => (vs, "series")
    case List(vs) => (vs, "list")
  }

  /** The restore side: tag "series" rebuilds a Series, any other tag gives
      the stored list back. */
  function Denormalize(values: seq<real>, tag: string): (r: SeqValue)
    ensures r.values == values
    ensures r.Series? <==> tag == "series"
  {
    if tag == "series" then Series(values) else List(values)
  }
}
