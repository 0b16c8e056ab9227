/** The JSON values the client reads, and the tolerant field accessors through
    which every model constructor reads them (src/name.cxx:13-93).

    The registrar omits fields that hold their default value, so an absent key
    reads as 0, false or "". A key that is present with the wrong kind is an
    error, and so is an integer that does not fit the requested width. */
module Json {
  import opened Errors

  /** A parsed JSON value. Integers are mathematical; the 64-bit storage of the
      JSON library is modelled by the range check in `AsInt64`. Doubles are
      only ever copied, so a `real` stands for them. */
  datatype JVal =
    | JNull
    | JBool(b: bool)
    | JInt(i: int)
    | JReal(r: real)
    | JStr(s: string)
    | JArr(items: seq<JVal>)
    | JObj(fields: map<string, JVal>)

  type JObject = map<string, JVal>

  const INT32_MIN: int := -0x8000_0000
  const INT32_MAX: int := 0x7fff_ffff
  const UINT32_MAX: int := 0xffff_ffff
  const INT64_MIN: int := -0x8000_0000_0000_0000
  const INT64_MAX: int := 0x7fff_ffff_ffff_ffff

  predicate InInt64(x: int) { INT64_MIN <= x <= INT64_MAX }
  predicate InInt32(x: int) { INT32_MIN <= x <= INT32_MAX }
  predicate InUInt32(x: int) { 0 <= x <= UINT32_MAX }

  type Int32 = x: int | INT32_MIN <= x <= INT32_MAX
  type UInt32 = x: int | 0 <= x <= UINT32_MAX

  // ---------------------------------------------------------------------
  // Kind checks of one value (boost::json's as_int64, as_bool, ...)
  // ---------------------------------------------------------------------

  /** `as_int64`: only an integer that the library stores as a signed 64-bit
      number has that kind; larger ones are stored unsigned or as doubles. */
  function AsInt64(v: JVal): (r: Result<int>)
    ensures r.Ok? <==> v.JInt? && InInt64(v.i)
    ensures r.Ok? ==> r.value == v.i
    ensures r.Err? ==> r.error == KindError(KInt64)
  {
    if v.JInt? && InInt64(v.i) then Ok(v.i) else Err(KindError(KInt64))
  }

  function AsBool(v: JVal): (r: Result<bool>)
    ensures r.Ok? <==> v.JBool?
    ensures r.Ok? ==> v == JBool(r.value)
    ensures r.Err? ==> r.error == KindError(KBool)
  {
    if v.JBool? then Ok(v.b) else Err(KindError(KBool))
  }

  function AsString(v: JVal): (r: Result<string>)
    ensures r.Ok? <==> v.JStr?
    ensures r.Ok? ==> v == JStr(r.value)
    ensures r.Err? ==> r.error == KindError(KString)
  {
    if v.JStr? then Ok(v.s) else Err(KindError(KString))
  }

  function AsDouble(v: JVal): (r: Result<real>)
    ensures r.Ok? <==> v.JReal?
    ensures r.Ok? ==> v == JReal(r.value)
    ensures r.Err? ==> r.error == KindError(KDouble)
  {
    if v.JReal? then Ok(v.r) else Err(KindError(KDouble))
  }

  function AsArray(v: JVal): (r: Result<seq<JVal>>)
    ensures r.Ok? <==> v.JArr?
    ensures r.Ok? ==> v == JArr(r.value)
    ensures r.Err? ==> r.error == KindError(KArray)
  {
    if v.JArr? then Ok(v.items) else Err(KindError(KArray))
  }

  function AsObject(v: JVal): (r: Result<JObject>)
    ensures r.Ok? <==> v.JObj?
    ensures r.Ok? ==> v == JObj(r.value)
    ensures r.Err? ==> r.error == KindError(KObject)
  {
    if v.JObj? then Ok(v.fields) else Err(KindError(KObject))
  }

  // ---------------------------------------------------------------------
  // Tolerant field accessors
  // ---------------------------------------------------------------------

  /** getInt64: 0 for an absent key, otherwise the stored 64-bit integer. */
  function GetInt64(o: JObject, key: string): (r: Result<int>)
    ensures key !in o ==> r == Ok(0)
    ensures key in o ==> r == AsInt64(o[key])
    ensures r.Ok? ==> InInt64(r.value)
  {
    if key !in o then Ok(0) else AsInt64(o[key])
  }

  /** getInt32: the 64-bit value, unchanged, when it fits in 32 signed bits;
      otherwise a range error naming the value. */
  function GetInt32(o: JObject, key: string): (r: Result<Int32>)
    ensures r.Ok? <==> GetInt64(o, key).Ok? && InInt32(GetInt64(o, key).value)
    ensures r.Ok? ==> r.value == GetInt64(o, key).value
    ensures GetInt64(o, key).Ok? && !InInt32(GetInt64(o, key).value) ==>
              r == Err(RangeError(GetInt64(o, key).value, Int32Width))
    ensures GetInt64(o, key).Err? ==> r == Err(GetInt64(o, key).error)
  {
    var v :- GetInt64(o, key);
    if v > INT32_MAX || v < INT32_MIN then Err(RangeError(v, Int32Width)) else Ok(v)
  }

  /** getUInt32: the 64-bit value, unchanged, when it lies in [0, 2^32-1];
      a negative value is rejected rather than wrapped. */
  function GetUInt32(o: JObject, key: string): (r: Result<UInt32>)
    ensures r.Ok? <==> GetInt64(o, key).Ok? && InUInt32(GetInt64(o, key).value)
    ensures r.Ok? ==> r.value == GetInt64(o, key).value
    ensures GetInt64(o, key).Ok? && !InUInt32(GetInt64(o, key).value) ==>
              r == Err(RangeError(GetInt64(o, key).value, UInt32Width))
    ensures GetInt64(o, key).Err? ==> r == Err(GetInt64(o, key).error)
  {
    var v :- GetInt64(o, key);
    if v > UINT32_MAX || v < 0 then Err(RangeError(v, UInt32Width)) else Ok(v)
  }

  /** getBool: false for an absent key, otherwise the stored boolean. */
  function GetBool(o: JObject, key: string): (r: Result<bool>)
    ensures key !in o ==> r == Ok(false)
    ensures key in o ==> r == AsBool(o[key])
  {
    if key !in o then Ok(false) else AsBool(o[key])
  }

  /** getString: "" for an absent key, otherwise the stored string. */
  function GetString(o: JObject, key: string): (r: Result<string>)
    ensures key !in o ==> r == Ok("")
    ensures key in o ==> r == AsString(o[key])
  {
    if key !in o then Ok("") else AsString(o[key])
  }

  /** getDouble: 0.0 for an absent key, otherwise the stored double. */
  function GetDouble(o: JObject, key: string): (r: Result<real>)
    ensures key !in o ==> r == Ok(0.0)
    ensures key in o ==> r == AsDouble(o[key])
  {
    if key !in o then Ok(0.0) else AsDouble(o[key])
  }

  // ---------------------------------------------------------------------
  // Element-wise conversion of a JSON array
  // ---------------------------------------------------------------------

  /** Converts the items of an array in order; the first item that fails to
      convert aborts with its error (the C++ loops throw on that item). */
  function ParseAll<T>(items: seq<JVal>, parse: JVal -> Result<T>): Result<seq<T>>
  {
    if items == [] then Ok([])
    else
      var x :- parse(items[0]);
      var rest :- ParseAll(items[1..], parse);
      Ok([x] + rest)
  }

  /** `prefix` followed by the sequence in `r`, or `r`'s error. */
  function Prepend<T>(prefix: seq<T>, r: Result<seq<T>>): Result<seq<T>>
  {
    match r
    case Ok(s) => Ok(prefix + s)
    case Err(e) => Err(e)
  }

  lemma PrependNothing<T>(r: Result<seq<T>>)
    ensures Prepend([], r) == r
  {
    if r.Ok? {
      assert [] + r.value == r.value;
    }
  }

  lemma PrependAssoc<T>(a: seq<T>, b: seq<T>, r: Result<seq<T>>)
    ensures Prepend(a, Prepend(b, r)) == Prepend(a + b, r)
  {
    if r.Ok? {
      assert a + (b + r.value) == (a + b) + r.value;
    }
  }

  /** ParseAll succeeds exactly when every item converts, and then yields the
      converted items one for one, in the same order. */
  lemma {:induction false} ParseAllOk<T>(items: seq<JVal>, parse: JVal -> Result<T>, out: seq<T>)
    ensures ParseAll(items, parse) == Ok(out) <==>
              |out| == |items| && forall i :: 0 <= i < |items| ==> parse(items[i]) == Ok(out[i])
  {
    if items != [] {
      var rest := ParseAll(items[1..], parse);
      if out != [] {
        ParseAllOk(items[1..], parse, out[1..]);
        if |out| == |items| && forall i :: 0 <= i < |items| ==> parse(items[i]) == Ok(out[i]) {
          forall i | 0 <= i < |items| - 1 ensures parse(items[1..][i]) == Ok(out[1..][i]) {
            assert items[1..][i] == items[i + 1];
          }
          assert [out[0]] + out[1..] == out;
        }
        if ParseAll(items, parse) == Ok(out) {
          assert parse(items[0]) == Ok(out[0]);
          assert rest == Ok(out[1..]);
          forall i | 0 <= i < |items| ensures parse(items[i]) == Ok(out[i]) {
            if i > 0 {
              assert items[1..][i - 1] == items[i];
            }
          }
        }
      } else {
        if ParseAll(items, parse).Ok? {
          assert |ParseAll(items, parse).value| >= 1;
        }
      }
    }
  }

  /** When some item fails to convert, ParseAll fails with the error of the
      first such item. */
  lemma {:induction false} ParseAllFirstError<T>(items: seq<JVal>, parse: JVal -> Result<T>, k: nat)
    requires k < |items| && parse(items[k]).Err?
    requires forall i :: 0 <= i < k ==> parse(items[i]).Ok?
    ensures ParseAll(items, parse) == Err(parse(items[k]).error)
  {
    if k > 0 {
      forall i | 0 <= i < k - 1 ensures parse(items[1..][i]).Ok? {
        assert items[1..][i] == items[i + 1];
      }
      assert items[1..][k - 1] == items[k];
      ParseAllFirstError(items[1..], parse, k - 1);
    }
  }

  /** ParseAll succeeds exactly when every item converts. */
  lemma {:induction false} ParseAllSucceeds<T>(items: seq<JVal>, parse: JVal -> Result<T>)
    ensures ParseAll(items, parse).Ok? <==> forall i :: 0 <= i < |items| ==> parse(items[i]).Ok?
  {
    if items != [] {
      ParseAllSucceeds(items[1..], parse);
      if forall i :: 0 <= i < |items| ==> parse(items[i]).Ok? {
        forall i | 0 <= i < |items| - 1 ensures parse(items[1..][i]).Ok? {
          assert items[1..][i] == items[i + 1];
        }
      }
      if ParseAll(items, parse).Ok? {
        forall i | 0 <= i < |items| ensures parse(items[i]).Ok? {
          if i > 0 {
            assert items[1..][i - 1] == items[i];
          }
        }
      }
    }
  }

  /** A failed conversion fails with the error of one of the items. */
  lemma {:induction false} ParseAllErrorOfItem<T>(items: seq<JVal>, parse: JVal -> Result<T>)
    requires ParseAll(items, parse).Err?
    ensures exists i :: 0 <= i < |items| && parse(items[i]) == Err(ParseAll(items, parse).error)
  {
    if parse(items[0]).Ok? {
      ParseAllErrorOfItem(items[1..], parse);
      var i :| 0 <= i < |items[1..]| && parse(items[1..][i]) == Err(ParseAll(items[1..], parse).error);
      assert items[1..][i] == items[i + 1];
    }
  }
}
