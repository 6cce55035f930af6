/** The lazy attribute cache of scripts/explain_manifest/explain.py. */
module Attributes {
  import opened Wrappers

  /** Attribute values: None, booleans, numbers, strings, lists of strings, lists of versions, dictionaries. */
  datatype Value =
    | Nothing
    | Flag(b: bool)
    | Int(n: int)
    | Text(s: string)
    | List(items: seq<string>)
    | Versions(items: seq<string>)  // version objects, by the strings they are made of
    | Dict(entries: map<string, Value>)

  predicate Truthy(v: Value) {
    match v
    case Nothing => false
    case Flag(b) => b
    case Int(n) => n != 0
    case Text(s) => s != ""
    case List(items) => items != []
    case Versions(items) => items != []
    case Dict(entries) => entries != map[]
  }

  /** The values that a condition takes for false. */
  lemma FalsyExactly(v: Value)
    ensures !Truthy(v)
      <==> v in {Nothing, Flag(false), Int(0), Text(""), List([]), Versions([]), Dict(map[])}
  {
  }

  /** What running a lazy attribute's closure does. An AttributeError says that there is no such attribute. */
  datatype Thunk = Gives(v: Value) | Raises | RaisesAttributeError

  /** A file: the attributes its constructor set, and its lazy ones. */
  datatype Info = Info(relpath: string, plain: map<string, Value>, lazy: map<string, Thunk>)

  datatype Lookup = Found(v: Value) | Absent | Raised

  predicate Cacheable(info: Info, name: string) {
    name !in info.plain && name in info.lazy && info.lazy[name].Gives? && Truthy(info.lazy[name].v)
  }

  /**
    The meaning of attribute access, without any cache. A falsy lazy value reads as absent, and so
    does a closure's AttributeError.
  */
  function Get(info: Info, name: string): Lookup {
    if name in info.plain then Found(info.plain[name])
    else if Cacheable(info, name) then Found(info.lazy[name].v)
    else if name in info.lazy && info.lazy[name].Raises? then Raised
    else Absent
  }

  /** An attribute the constructor set wins; then a lazy one counts if its value does. */
  lemma GetExactly(info: Info, name: string)
    ensures name in info.plain ==> Get(info, name) == Found(info.plain[name])
    ensures name !in info.plain && name !in info.lazy ==> Get(info, name) == Absent
    ensures name !in info.plain && name in info.lazy ==>
      match info.lazy[name]
      case Raises => Get(info, name) == Raised
      case RaisesAttributeError => Get(info, name) == Absent
      case Gives(v) =>
        if v in {Nothing, Flag(false), Int(0), Text(""), List([]), Versions([]), Dict(map[])}
        then Get(info, name) == Absent else Get(info, name) == Found(v)
  {
    if name in info.lazy && info.lazy[name].Gives? {
      FalsyExactly(info.lazy[name].v);
    }
  }

  /** The cache, and how often each closure has been run. */
  datatype Memo = Memo(cache: map<string, Value>, runs: map<string, nat>)

  function Runs(m: Memo, name: string): nat {
    if name in m.runs then m.runs[name] else 0
  }

  /** One access, as the code performs it. */
  function Touch(info: Info, m: Memo, name: string): Memo {
    if name in info.plain || name in m.cache || name !in info.lazy then m
    else
      var ran := m.(runs := m.runs[name := Runs(m, name) + 1]);
      var ret := info.lazy[name];
      if ret.Gives? && Truthy(ret.v) then ran.(cache := m.cache[name := ret.v]) else ran
  }

  function TouchAll(info: Info, names: seq<string>): Memo {
    if names == [] then Memo(map[], map[])
    else Touch(info, TouchAll(info, names[..|names| - 1]), names[|names| - 1])
  }

  /**
    After any accesses, exactly the accessed lazy attributes with a truthy value are cached, each
    with its closure's value. Such a closure has run once; a falsy or raising one has run at every
    access; a plain attribute never runs a closure.
  */
  lemma {:induction false} CacheExact(info: Info, names: seq<string>, name: string)
    ensures var m := TouchAll(info, names);
      && (name in m.cache <==> name in names && Cacheable(info, name))
      && (name in m.cache ==> m.cache[name] == info.lazy[name].v && Truthy(m.cache[name]))
      && Runs(m, name) == (if name in info.plain || name !in info.lazy then 0
                           else if Cacheable(info, name) then if name in names then 1 else 0
                           else multiset(names)[name])
  {
    if names != [] {
      var before, last := names[..|names| - 1], names[|names| - 1];
      assert names == before + [last];
      CacheExact(info, before, name);
    }
  }

  class FileInfo {
    const info: Info
    var cache: map<string, Value>
    ghost var runs: map<string, nat>
    ghost var asked: seq<string>  // every access so far

    ghost predicate Valid()
      reads this
    {
      Memo(cache, runs) == TouchAll(info, asked)
    }

    constructor (info: Info)
      ensures Valid() && this.info == info && asked == []
    {
      this.info := info;
      cache, runs, asked := map[], map[], [];
    }

    /** Attribute access: the instance, else the cache, else the lazy closure. */
    method GetAttr(name: string) returns (r: Lookup)
      requires Valid()
      modifies this
      ensures Valid() && asked == old(asked) + [name]
      ensures r == Get(info, name)
    {
      CacheExact(info, asked, name);
      assert (asked + [name])[..|asked|] == asked;
      asked := asked + [name];
      if name in info.plain {
        return Found(info.plain[name]);
      }
      if name in cache {
        return Found(cache[name]);
      }
      if name in info.lazy {
        runs := runs[name := Runs(Memo(cache, runs), name) + 1];
        match info.lazy[name] {
          case Raises => return Raised;
          case RaisesAttributeError => return Absent;
          case Gives(ret) =>
            if Truthy(ret) {
              cache := cache[name := ret];
              return Found(ret);
            }
        }
      }
      return Absent;
    }
  }
}
