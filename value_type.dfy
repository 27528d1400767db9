// The literal and primitive type vocabulary of Tasty Fresh
// (src/expression/value_type.rs).

module ValueTypes {
  import opened Text
  import opened Wrappers

  /** The thirteen C++ arithmetic types a Tasty Fresh number can take. */
  datatype NumberType =
    | Byte | UByte
    | Short | UShort
    | Int | UInt
    | Long | ULong
    | LongLong | ULongLong
    | Float | Double | LongDouble
  {
    predicate IsUnsigned() {
      this in {UByte, UShort, UInt, ULong, ULongLong}
    }
  }

  /** The C++ spelling of a number type. */
  function NumberToCpp(n: NumberType): (r: string)
    ensures |r| > 0
  {
    match n
    case Byte => "char"
    case UByte => "unsigned char"
    case Short => "short"
    case UShort => "unsigned short"
    case Int => "int"
    case UInt => "unsigned int"
    case Long => "long"
    case ULong => "unsigned long"
    case LongLong => "long long"
    case ULongLong => "unsigned long long"
    case Float => "float"
    case Double => "double"
    case LongDouble => "long double"
  }

  /** The signed type an unsigned one is paired with. */
  function SignedCounterpart(n: NumberType): (r: NumberType)
    requires n.IsUnsigned()
    ensures !r.IsUnsigned()
  {
    match n
    case UByte => Byte
    case UShort => Short
    case UInt => Int
    case ULong => Long
    case ULongLong => LongLong
  }

  /** Each unsigned type is spelled "unsigned " followed by its signed counterpart. */
  lemma UnsignedSpelling(n: NumberType)
    requires n.IsUnsigned()
    ensures NumberToCpp(n) == "unsigned " + NumberToCpp(SignedCounterpart(n))
  {
  }

  /** Reads a C++ arithmetic spelling back; the inverse of `NumberToCpp`. */
  function NumberFromCpp(s: string): (r: Option<NumberType>)
    ensures r.Some? ==> NumberToCpp(r.value) == s
  {
    if s == "char" then Some(Byte)
    else if s == "unsigned char" then Some(UByte)
    else if s == "short" then Some(Short)
    else if s == "unsigned short" then Some(UShort)
    else if s == "int" then Some(Int)
    else if s == "unsigned int" then Some(UInt)
    else if s == "long" then Some(Long)
    else if s == "unsigned long" then Some(ULong)
    else if s == "long long" then Some(LongLong)
    else if s == "unsigned long long" then Some(ULongLong)
    else if s == "float" then Some(Float)
    else if s == "double" then Some(Double)
    else if s == "long double" then Some(LongDouble)
    else None
  }

  /** The thirteen spellings are distinct: reading a spelling back gives the type it came from. */
  lemma NumberSpellingRoundTrip(n: NumberType)
    ensures NumberFromCpp(NumberToCpp(n)) == Some(n)
  {
  }

  /** Hence `NumberToCpp` is injective. */
  lemma NumberToCppInjective(a: NumberType, b: NumberType)
    requires NumberToCpp(a) == NumberToCpp(b)
    ensures a == b
  {
    NumberSpellingRoundTrip(a);
    NumberSpellingRoundTrip(b);
  }

  /** The three string representations. */
  datatype StringType = ConstCharArray | MultilineConstCharArray | StringClass

  /** Both character-array kinds are `const char*`; the class kind is `std::string`. */
  function StringToCpp(s: StringType): (r: string)
    ensures r == "const char*" <==> !s.StringClass?
    ensures r == "std::string" <==> s.StringClass?
  {
    match s
    case ConstCharArray => "const char*"
    case MultilineConstCharArray => "const char*"
    case StringClass => "std::string"
  }

  /** The classification `ValueType::new` gives a literal's text. */
  datatype ValueType = Unknown | Null | Boolean | Number(number: NumberType) | String | Class(className: string)

  /** `char::is_numeric`, over ASCII. */
  predicate IsNumeric(c: char) { IsDigit(c) }

  /** Every character of `s` is numeric; true of the empty text. */
  predicate AllNumeric(s: string) {
    forall i :: 0 <= i < |s| ==> IsNumeric(s[i])
  }

  /** Classifies a literal: "null", then the two booleans, then all-numeric text, else a class. */
  function NewValueType(text: string): (r: ValueType)
    ensures r == Null <==> text == "null"
    ensures r == Boolean <==> text == "true" || text == "false"
    ensures r == Number(Int) <==> text != "null" && text != "true" && text != "false" && AllNumeric(text)
    ensures r.Class? <==> text != "null" && text != "true" && text != "false" && !AllNumeric(text)
    ensures r.Class? ==> r.className == ""
    ensures !r.Unknown? && !r.String?
  {
    if text == "null" then Null
    else if text == "true" || text == "false" then Boolean
    else if AllNumeric(text) then Number(Int)
    else Class("")
  }

  /** The empty literal counts as numeric. */
  lemma EmptyLiteralIsNumber()
    ensures NewValueType("") == Number(Int)
  {
  }
}
