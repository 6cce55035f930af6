/** Values, protected calls and replies shared by the Lua parts of the model. */
module LuaValues {

  datatype Lua =
    | Nil
    | Bool(b: bool)
    | Number(n: real)
    | Str(s: string)
    | Table(fields: map<string, Lua>)
    | Other(tag: nat)  // functions, userdata, threads

  predicate Truthy(v: Lua) {
    v != Nil && v != Bool(false)
  }

  function Field(t: Lua, k: string): Lua
    requires t.Table?
  {
    if k in t.fields then t.fields[k] else Nil
  }

  /** What calling a Lua function does: it returns some values or raises. */
  datatype FnResult = Values(vs: seq<Lua>) | Raise(e: Lua)

  /** What a caller gets back from a whole call. */
  datatype Reply = Return(vs: seq<Lua>) | Error(e: Lua)

  function Nth(vs: seq<Lua>, i: nat): Lua {
    if i < |vs| then vs[i] else Nil
  }

  /** `local pok, ok, err = pcall(fn)`, then `nil, raised` or `ok, err`. */
  function Protected(r: FnResult): Reply {
    match r
    case Values(vs) => Return([Nth(vs, 0), Nth(vs, 1)])
    case Raise(e) => Return([Nil, e])
  }

  function Unprotected(r: FnResult): Reply {
    match r
    case Values(vs) => Return(vs)
    case Raise(e) => Error(e)
  }
}
