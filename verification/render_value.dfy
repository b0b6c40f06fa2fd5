/** Model of src/Bigode/Models/RenderValue.cs and RenderModel.cs: the values a template is rendered
    against. The source keeps five flags and five nullable fields; here one tag selects one payload. */
module RenderValues {
  import opened Wrappers
  import opened Errors

  /** A `RenderValue`. Lambdas are pure text-to-text functions. */
  datatype Value =
    | Str(text: string)
    | Obj(model: Model)
    | Arr(items: seq<Model>)
    | Lambda(fn: string -> string)
    | Bool(flag: bool)

  /** A `RenderModel`: keys are unique, order is irrelevant. */
  type Model = map<string, Value>

  predicate IsString(v: Value) { v.Str? }
  predicate IsModel(v: Value) { v.Obj? }
  predicate IsArray(v: Value) { v.Arr? }
  predicate IsLambda(v: Value) { v.Lambda? }
  predicate IsBool(v: Value) { v.Bool? }

  /** How many of the five `Is…` flags are set. */
  function FlagCount(v: Value): nat {
    (if IsString(v) then 1 else 0) + (if IsModel(v) then 1 else 0) + (if IsArray(v) then 1 else 0)
    + (if IsLambda(v) then 1 else 0) + (if IsBool(v) then 1 else 0)
  }

  /** Every value, whichever constructor built it, has exactly one flag set. */
  lemma ExactlyOneFlag(v: Value)
    ensures FlagCount(v) == 1
  {
  }

  function GetStringValue(v: Value): (r: Result<string, Error>)
    ensures r.Ok? <==> IsString(v)
    ensures r.Err? ==> r.error == NotA("a string")
  {
    match v
    case Str(s) => Ok(s)
    case _ => Err(NotA("a string"))
  }

  function GetModel(v: Value): (r: Result<Model, Error>)
    ensures r.Ok? <==> IsModel(v)
    ensures r.Err? ==> r.error == NotA("a model")
  {
    match v
    case Obj(m) => Ok(m)
    case _ => Err(NotA("a model"))
  }

  function GetArray(v: Value): (r: Result<seq<Model>, Error>)
    ensures r.Ok? <==> IsArray(v)
    ensures r.Err? ==> r.error == NotA("an array")
  {
    match v
    case Arr(items) => Ok(items)
    case _ => Err(NotA("an array"))
  }

  function GetLambda(v: Value): (r: Result<string -> string, Error>)
    ensures r.Ok? <==> IsLambda(v)
    ensures r.Err? ==> r.error == NotA("a lambda")
  {
    match v
    case Lambda(f) => Ok(f)
    case _ => Err(NotA("a lambda"))
  }

  function GetBoolValue(v: Value): (r: Result<bool, Error>)
    ensures r.Ok? <==> IsBool(v)
    ensures r.Err? ==> r.error == NotA("a bool")
  {
    match v
    case Bool(b) => Ok(b)
    case _ => Err(NotA("a bool"))
  }

  /** Reading a value back through the getter of the constructor that built it returns the stored
      payload, `false` included. */
  lemma GettersReturnStoredValue(s: string, m: Model, items: seq<Model>, f: string -> string, b: bool)
    ensures GetStringValue(Str(s)) == Ok(s)
    ensures GetModel(Obj(m)) == Ok(m)
    ensures GetArray(Arr(items)) == Ok(items)
    ensures GetLambda(Lambda(f)) == Ok(f)
    ensures GetBoolValue(Bool(b)) == Ok(b)
    ensures GetBoolValue(Bool(false)) == Ok(false)
  {
  }
}
