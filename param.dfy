/**
 * The parameters an alert element carries. The parameter class itself is not
 * part of this model: a parameter is a kind together with an optional value,
 * and `getValue()` is a typed extraction that yields the value only when it
 * has the requested type.
 */
module AlertParam {
  import opened Wrappers

  /** A platform colour object, observed only through identity. */
  type Color(==)

  /** A platform font object, observed only through identity. */
  type Font(==)

  /** The parameter kinds the alert core uses. */
  datatype ParamType = TextParam | ColorParam | FontParam | WidthParam

  /** What a parameter can hold: a string, a colour, a font or a number. */
  datatype Value = TextValue(text: string) | ColorValue(color: Color) | FontValue(font: Font) | NumberValue(number: real)

  datatype Param = Param(kind: ParamType, value: Option<Value>)

  /** `getValue()` read as a string. */
  function AsText(v: Option<Value>): (r: Option<string>)
    ensures r.Some? <==> v.Some? && v.value.TextValue?
    ensures r.Some? ==> v == Some(TextValue(r.value))
  {
    match v
    case Some(TextValue(s)) => Some(s)
    case _ => None
  }

  /** `getValue()` read as a colour. */
  function AsColor(v: Option<Value>): (r: Option<Color>)
    ensures r.Some? <==> v.Some? && v.value.ColorValue?
    ensures r.Some? ==> v == Some(ColorValue(r.value))
  {
    match v
    case Some(ColorValue(c)) => Some(c)
    case _ => None
  }

  /** `getValue()` read as a font. */
  function AsFont(v: Option<Value>): (r: Option<Font>)
    ensures r.Some? <==> v.Some? && v.value.FontValue?
    ensures r.Some? ==> v == Some(FontValue(r.value))
  {
    match v
    case Some(FontValue(f)) => Some(f)
    case _ => None
  }

  /** `getValue()` read as a number. */
  function AsNumber(v: Option<Value>): (r: Option<real>)
    ensures r.Some? <==> v.Some? && v.value.NumberValue?
    ensures r.Some? ==> v == Some(NumberValue(r.value))
  {
    match v
    case Some(NumberValue(n)) => Some(n)
    case _ => None
  }

  /** An optional string stored as a parameter value (`title as AnyObject?`). */
  function BoxText(s: Option<string>): (v: Option<Value>)
    ensures AsText(v) == s
    ensures AsColor(v) == None && AsFont(v) == None && AsNumber(v) == None
  {
    match s
    case Some(t) => Some(TextValue(t))
    case None => None
  }

  /** An optional colour stored as a parameter value. */
  function BoxColor(c: Option<Color>): (v: Option<Value>)
    ensures AsColor(v) == c
    ensures AsText(v) == None && AsFont(v) == None && AsNumber(v) == None
  {
    match c
    case Some(x) => Some(ColorValue(x))
    case None => None
  }

  /** An optional font stored as a parameter value. */
  function BoxFont(f: Option<Font>): (v: Option<Value>)
    ensures AsFont(v) == f
    ensures AsText(v) == None && AsColor(v) == None && AsNumber(v) == None
  {
    match f
    case Some(x) => Some(FontValue(x))
    case None => None
  }
}
