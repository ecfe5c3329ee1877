/** boolOrInt.UnmarshalJSON of models.go: a field the server sends either
    as 0/1 or as a boolean. The raw JSON value is abstracted to its kind. */
module BoolOrInt {
  import opened Results

  /** A JSON value, as far as the decoder distinguishes it: an integer
      literal, a boolean literal, null, or anything else (a string, a
      fraction, an object, an array), named by its JSON kind. */
  datatype JsonValue = Int(n: int) | Bool(b: bool) | Null | Other(kind: string)

  const MinInt64: int := -0x8000_0000_0000_0000
  const MaxInt64: int := 0x7fff_ffff_ffff_ffff

  /** Decoding into a Go int: null leaves the int at zero without error;
      an integer literal outside 64 bits, or any non-integer, fails. */
  function DecodeInt(v: JsonValue): Option<int> {
    match v
    case Int(n) => if MinInt64 <= n <= MaxInt64 then Some(n) else None
    case Null => Some(0)
    case _ => None
  }

  /** The kind named in encoding/json's type-mismatch error. */
  function KindName(v: JsonValue): string {
    match v
    case Int(_) => "number"
    case Bool(_) => "bool"
    case Null => "null"
    case Other(k) => k
  }

  /** Decoding into a Go bool: only a boolean literal (or null) succeeds. */
  function DecodeBool(v: JsonValue): Result<bool> {
    match v
    case Bool(b) => Ok(b)
    case Null => Ok(false)
    case _ => Err("json: cannot unmarshal " + KindName(v) + " into Go value of type bool")
  }

  /** The outcome of UnmarshalJSON: the decoded flag, or the error. */
  function Unmarshal(v: JsonValue): (r: Result<bool>)
    ensures r.Ok? <==> v.Null? || v.Bool? || (v.Int? && (v.n == 0 || v.n == 1))
    ensures v.Int? && r.Ok? ==> r.value == (v.n == 1)
    ensures v.Bool? ==> r == Ok(v.b)
    ensures v.Null? ==> r == Ok(false)
  {
    var isInt := DecodeInt(v);
    if isInt.Some? && (isInt.value == 0 || isInt.value == 1) then Ok(isInt.value == 1)
    else DecodeBool(v)
  }

  /** Unmarshalling the integer text of a flag gives the flag back. */
  lemma UnmarshalIntRoundTrip(b: bool)
    ensures Unmarshal(Int(if b then 1 else 0)) == Ok(b)
    ensures Unmarshal(Bool(b)) == Ok(b)
  {
  }

  /** The field, updated in place by UnmarshalJSON. */
  class BoolOrIntField {
    var value: bool

    constructor ()
      ensures !value
    {
      value := false;
    }

    /** UnmarshalJSON: try an int first; 0 and 1 give false and true.
        Otherwise try a bool. On an error the field keeps its value. The
        "invalid boolOrInt" return sits behind a guard that excludes it. */
    method UnmarshalJSON(data: JsonValue) returns (err: Option<string>)
      modifies this
      ensures err.None? <==> Unmarshal(data).Ok?
      ensures err.None? ==> value == Unmarshal(data).value
      ensures err.Some? ==> err.value == Unmarshal(data).error && value == old(value)
    {
      var isInt := DecodeInt(data);
      if isInt.Some? {
        if isInt.value == 0 || isInt.value == 1 {
          if isInt.value != 0 && isInt.value != 1 {
            assert false;
          }
          value := isInt.value == 1;
          return None;
        }
      }
      var isBool := DecodeBool(data);
      if isBool.Err? {
        return Some(isBool.error);
      }
      value := isBool.value;
      return None;
    }
  }
}
