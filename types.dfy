/** The type registry: type descriptors, and the conversions between literal strings and typed values. */
module Types {
  import opened Errors
  import opened Strings
  import opened Numbers

  /** A maximal string length; -1 means unbounded. */
  type Length = n: int | n >= -1

  /** The six type kinds; a string type carries its maximal length. */
  datatype Type = Boolean | Date | DateTime | Int | Str(length: Length) | Uuid

  /** The unbounded string singleton `Type.STRING`. */
  const STRING: Type := Str(-1)

  /** A typed value. A date or datetime keeps the literal it was parsed from, which names the instant. */
  datatype Value =
    | BoolV(b: bool)
    | DateV(literal: string)
    | DateTimeV(literal: string)
    | IntV(i: int)
    | StrV(s: string)
    | UuidV(s: string)

  /** The format gate of a date literal: `YYYY-MM-DD`. */
  predicate DateShape(s: string) {
    var u := Utf16(s);
    |u| == 10 && u[4] == '-' as int && u[7] == '-' as int
  }

  /** The format gate of a datetime literal: `YYYY-MM-DDTHH:MM:SS`. */
  predicate DateTimeShape(s: string) {
    var u := Utf16(s);
    |u| == 19 && u[4] == '-' as int && u[7] == '-' as int && u[10] == 'T' as int &&
    u[13] == ':' as int && u[16] == ':' as int
  }

  /** `v` is a value of type `t`: the kinds agree and the value passes the type's checks. */
  predicate HasType(v: Value, t: Type) {
    match t
    case Boolean => v.BoolV?
    case Date => v.DateV? && DateShape(v.literal)
    case DateTime => v.DateTimeV? && DateTimeShape(v.literal)
    case Int => v.IntV? && -MaxSafeInteger <= v.i <= MaxSafeInteger
    case Str(n) => v.StrV? && (n == -1 || |Utf16(v.s)| <= n)
    case Uuid => v.UuidV?
  }

  /** `Type.instantiateFromDescriptor`. */
  function FromDescriptor(descriptor: string): (r: Result<Type>)
    ensures r.Err? ==> r.error.IllegalArgument?
    ensures r.Ok? && r.value.Str? && r.value.length != -1 ==> StartsWith(descriptor, "string(")
  {
    if descriptor == "boolean" then Ok(Boolean)
    else if descriptor == "date" then Ok(Date)
    else if descriptor == "datetime" then Ok(DateTime)
    else if descriptor == "int" then Ok(Int)
    else if descriptor == "string" then Ok(STRING)
    else if descriptor == "uuid" then Ok(Uuid)
    else if StartsWith(descriptor, "string(") then
      var close := IndexOf(descriptor, ')', 7);
      if close == -1 then Err(IllegalArgument("invalid string descriptor."))
      else
        match NumberOf(descriptor[7..close])
        case None => Err(IllegalArgument("invalid string descriptor."))
        case Some(n) =>
          if n == -1 then Ok(STRING)
          else if n <= -2 then Err(IllegalArgument("invalid string descriptor: negative length."))
          else Ok(Str(n))
    else Err(IllegalArgument("invalid descriptor."))
  }

  /** `stringToValue` of each type. Calendar validity of dates is not checked (see README). */
  function StringToValue(t: Type, s: string): (r: Result<Value>)
    ensures r.Ok? ==> HasType(r.value, t)
    ensures r.Err? && t.Uuid? ==> r.error.Fault?
    ensures r.Err? && !t.Uuid? ==> r.error.IllegalArgument?
  {
    match t
    case Boolean =>
      if s == "false" then Ok(BoolV(false))
      else if s == "true" then Ok(BoolV(true))
      else Err(IllegalArgument("invalid boolean '" + s + "'."))
    case Date =>
      if !DateShape(s) then Err(IllegalArgument("invalid date '" + s + "'.")) else Ok(DateV(s))
    case DateTime =>
      if !DateTimeShape(s) then Err(IllegalArgument("invalid datetime '" + s + "'.")) else Ok(DateTimeV(s))
    case Int =>
      (match NumberOf(s)
       case None => Err(IllegalArgument("invalid int '" + s + "'."))
       case Some(n) =>
         if n < -MaxSafeInteger || n > MaxSafeInteger then Err(IllegalArgument("invalid int '" + s + "'."))
         else Ok(IntV(n)))
    case Str(n) =>
      if n != -1 && |Utf16(s)| > n then
        Err(IllegalArgument("length overflow (actual " + IntToString(|Utf16(s)|) + " exeeds maximal " + IntToString(n) + ")."))
      else Ok(StrV(s))
    case Uuid => Err(Fault("Error", "not implemented yet."))
  }

  /** `toISOString()` of a parsed date (read as UTC) or datetime (read as local time, here UTC). */
  function IsoString(v: Value): string
    requires v.DateV? || v.DateTimeV?
  {
    if v.DateV? then v.literal + "T00:00:00.000Z" else v.literal + ".000Z"
  }

  /** `valueToString`, as every type is evidently meant to have it (see ValueToStringAsWritten). */
  function ValueToString(v: Value): string {
    match v
    case BoolV(b) => if b then "true" else "false"
    case DateV(_) => IsoString(v)
    case DateTimeV(_) => IsoString(v)
    case IntV(i) => IntToString(i)
    case StrV(s) => s
    case UuidV(s) => s
  }

  /** `variable.type.valueToString(variable.value)` as written: the object built by `instantiateString`
      has no `valueToString`, so calling it on a bounded string type is a TypeError. */
  function ValueToStringAsWritten(t: Type, v: Value): Result<string> {
    if t.Str? && t.length != -1 then Err(Fault("TypeError", "variable.type.valueToString is not a function"))
    else Ok(ValueToString(v))
  }

  // ---------------------------------------------------------------------------------------------
  // Properties of the descriptor parser

  /** The six bare descriptors give the fixed singletons. */
  lemma BareDescriptors()
    ensures FromDescriptor("boolean") == Ok(Boolean)
    ensures FromDescriptor("date") == Ok(Date)
    ensures FromDescriptor("datetime") == Ok(DateTime)
    ensures FromDescriptor("int") == Ok(Int)
    ensures FromDescriptor("string") == Ok(STRING)
    ensures FromDescriptor("uuid") == Ok(Uuid)
  {
  }

  /** `string(N)` is the unbounded string for N = -1, a string of length N for N >= 0,
      and rejected for N <= -2. */
  lemma FromDescriptorStringN(n: int)
    ensures FromDescriptor("string(" + IntToString(n) + ")") ==
      if n == -1 then Ok(STRING)
      else if n >= 0 then Ok(Str(n))
      else Err(IllegalArgument("invalid string descriptor: negative length."))
  {
    var digits := IntToString(n);
    var d := "string(" + digits + ")";
    assert d[..7] == "string(";
    assert d[0] == 's' && d[6] == '(';
    assert StartsWith(d, "string(");
    var close := 7 + |digits|;
    assert d[close] == ')';
    forall j | 7 <= j < close ensures d[j] != ')' {
      assert d[j] == digits[j - 7];
    }
    assert IndexOf(d, ')', 7) == close;
    assert d[7..close] == digits;
    NumberOfIntToString(n);
  }

  /** A `string(` descriptor without a closing parenthesis is rejected. */
  lemma FromDescriptorMissingParenthesis(d: string)
    requires StartsWith(d, "string(")
    requires forall j :: 7 <= j < |d| ==> d[j] != ')'
    ensures FromDescriptor(d) == Err(IllegalArgument("invalid string descriptor."))
  {
    assert d[6] == "string("[6];
  }

  /** A `string(` descriptor whose length is not a number is rejected. */
  lemma FromDescriptorNonNumeric(d: string, close: nat)
    requires StartsWith(d, "string(")
    requires 7 <= close < |d| && d[close] == ')' && forall j :: 7 <= j < close ==> d[j] != ')'
    requires NumberOf(d[7..close]).None?
    ensures FromDescriptor(d) == Err(IllegalArgument("invalid string descriptor."))
  {
    assert d[6] == "string("[6];
    assert IndexOf(d, ')', 7) == close;
  }

  /** Every descriptor outside the grammar is rejected. */
  lemma FromDescriptorRejectsOthers(d: string)
    requires d !in {"boolean", "date", "datetime", "int", "string", "uuid"}
    requires !StartsWith(d, "string(")
    ensures FromDescriptor(d) == Err(IllegalArgument("invalid descriptor."))
  {
  }

  // ---------------------------------------------------------------------------------------------
  // Properties of the literal conversions

  /** A bounded string type accepts exactly the strings whose UTF-16 length fits, unchanged;
      the unbounded one accepts every string. */
  lemma StringAcceptsIff(n: Length, s: string)
    ensures StringToValue(Str(n), s).Ok? <==> (n == -1 || |Utf16(s)| <= n)
    ensures StringToValue(Str(n), s).Ok? ==> StringToValue(Str(n), s).value == StrV(s)
    ensures StringToValue(Str(n), s).Err? ==> StringToValue(Str(n), s).error.IllegalArgument?
  {
  }

  /** Boolean accepts exactly "true" and "false", and serialises them back. */
  lemma BooleanAcceptsExactly(s: string)
    ensures StringToValue(Boolean, s).Ok? <==> s == "true" || s == "false"
    ensures StringToValue(Boolean, s).Ok? ==> ValueToString(StringToValue(Boolean, s).value) == s
  {
  }

  lemma BooleanRoundTrip(b: bool)
    ensures StringToValue(Boolean, ValueToString(BoolV(b))) == Ok(BoolV(b))
  {
  }

  /** Every safe integer survives serialisation and parsing. */
  lemma IntRoundTrip(i: int)
    requires -MaxSafeInteger <= i <= MaxSafeInteger
    ensures StringToValue(Int, ValueToString(IntV(i))) == Ok(IntV(i))
  {
    NumberOfIntToString(i);
  }

  /** For boolean, int and string types, parsing the serialisation of a value of that type gives the value back. */
  lemma LiteralRoundTrip(t: Type, v: Value)
    requires t.Boolean? || t.Int? || t.Str?
    requires HasType(v, t)
    ensures StringToValue(t, ValueToString(v)) == Ok(v)
  {
    if t.Int? {
      IntRoundTrip(v.i);
    }
  }

  /** For boolean and string types, serialising a parsed literal gives the literal back. */
  lemma LiteralRoundTripBack(t: Type, s: string)
    requires t.Boolean? || t.Str?
    requires StringToValue(t, s).Ok?
    ensures ValueToString(StringToValue(t, s).value) == s
  {
  }

  /** The date gate: 10 code units with dashes at units 4 and 7; for text without characters above
      U+FFFF, 10 characters with dashes at positions 4 and 7. */
  lemma DateGate(s: string)
    ensures StringToValue(Date, s).Ok? <==> DateShape(s)
    ensures Bmp(s) ==> (StringToValue(Date, s).Ok? <==> (|s| == 10 && s[4] == '-' && s[7] == '-'))
  {
    if Bmp(s) {
      Utf16Bmp(s);
    }
  }

  /** The datetime gate: 19 code units with the separators `- - T : :` at units 4, 7, 10, 13 and 16;
      for text without characters above U+FFFF, the same positions in characters. */
  lemma DateTimeGate(s: string)
    ensures StringToValue(DateTime, s).Ok? <==> DateTimeShape(s)
    ensures Bmp(s) ==> (StringToValue(DateTime, s).Ok? <==>
      (|s| == 19 && s[4] == '-' && s[7] == '-' && s[10] == 'T' && s[13] == ':' && s[16] == ':'))
  {
    if Bmp(s) {
      Utf16Bmp(s);
    }
  }

  /** A character above U+FFFF counts twice against a string's bound: the one-character text
      U+1F600 does not fit `string(1)` but fits `string(2)`. */
  lemma AstralCountsTwice()
    ensures StringToValue(Str(1), "\U{1F600}") ==
      Err(IllegalArgument("length overflow (actual 2 exeeds maximal 1)."))
    ensures StringToValue(Str(2), "\U{1F600}") == Ok(StrV("\U{1F600}"))
  {
    var s := "\U{1F600}";
    assert s[1..] == [];
    assert |Utf16(s)| == 2;
    assert IntToString(2) == "2" && IntToString(1) == "1";
  }

  /** Parsing a uuid literal always fails. */
  lemma UuidNeverParses(s: string)
    ensures StringToValue(Uuid, s) == Err(Fault("Error", "not implemented yet."))
  {
  }

  /** As written, a variable declared `string(5)` cannot be serialised, although `string` can. */
  lemma BoundedStringHasNoSerializerAsWritten()
    ensures FromDescriptor("string(5)") == Ok(Str(5))
    ensures ValueToStringAsWritten(Str(5), StrV("abc")).Err?
    ensures ValueToStringAsWritten(STRING, StrV("abc")) == Ok("abc")
  {
    FromDescriptorStringN(5);
    assert IntToString(5) == "5";
    assert "string(" + "5" + ")" == "string(5)";
  }

  /** Corrected: a string of every declared length serialises to itself and parses back to the same value,
      so `string(-1)` and `string` are interchangeable. */
  lemma StringRoundTrip(n: Length, v: Value)
    requires HasType(v, Str(n))
    ensures ValueToString(v) == v.s
    ensures StringToValue(Str(n), ValueToString(v)) == Ok(v)
    ensures StringToValue(STRING, ValueToString(v)) == Ok(v)
  {
  }
}
