/**
  The header pipeline of spec/fixtures/proxy_wasm_filters/response_transformer: remove, rename,
  replace, add, append, each a loop over the response headers in place.
*/
module ResponseTransformer {
  import opened Wrappers
  import opened Headers
  import Seqs

  datatype Pair = Pair(name: string, value: string)
  datatype Config = Config(remove: seq<string>, rename: seq<Pair>, replace: seq<Pair>, add: seq<Pair>, append: seq<Pair>)

  // ----- The passes -----

  function RenameOne(h: Map, from: string, to: string): Map {
    Set(Set(h, from, None), to, Get(h, from))
  }

  function ReplaceOne(h: Map, p: Pair): Map {
    if Get(h, p.name).Some? then Set(h, p.name, Some(p.value)) else h
  }

  function AddOne(h: Map, p: Pair): Map {
    if Get(h, p.name).None? then Set(h, p.name, Some(p.value)) else h
  }

  function RemoveAll(h: Map, names: seq<string>): Map {
    if names == [] then h else Set(RemoveAll(h, names[..|names| - 1]), names[|names| - 1], None)
  }

  function RenameAll(h: Map, ps: seq<Pair>): Map {
    if ps == [] then h
    else RenameOne(RenameAll(h, ps[..|ps| - 1]), ps[|ps| - 1].name, ps[|ps| - 1].value)
  }

  function ReplaceAll(h: Map, ps: seq<Pair>): Map {
    if ps == [] then h else ReplaceOne(ReplaceAll(h, ps[..|ps| - 1]), ps[|ps| - 1])
  }

  function AddAll(h: Map, ps: seq<Pair>): Map {
    if ps == [] then h else AddOne(AddAll(h, ps[..|ps| - 1]), ps[|ps| - 1])
  }

  function AppendAll(h: Map, ps: seq<Pair>): Map {
    if ps == [] then h else Add(AppendAll(h, ps[..|ps| - 1]), ps[|ps| - 1].name, ps[|ps| - 1].value)
  }

  function Transform(c: Config, h: Map): Map {
    AppendAll(AddAll(ReplaceAll(RenameAll(RemoveAll(h, c.remove), c.rename), c.replace), c.add), c.append)
  }

  class Filter {
    const config: Config
    var headers: Map

    constructor (config: Config, headers: Map)
      ensures this.config == config && this.headers == headers
    {
      this.config, this.headers := config, headers;
    }

    method Remove()
      modifies this
      ensures headers == RemoveAll(old(headers), config.remove)
    {
      ghost var h := headers;
      for i := 0 to |config.remove|
        invariant headers == RemoveAll(h, config.remove[..i])
      {
        Seqs.TakeNext(config.remove, i);
        headers := Set(headers, config.remove[i], None);
      }
      assert config.remove[..|config.remove|] == config.remove;
    }

    method Rename()
      modifies this
      ensures headers == RenameAll(old(headers), config.rename)
    {
      ghost var h := headers;
      for i := 0 to |config.rename|
        invariant headers == RenameAll(h, config.rename[..i])
      {
        Seqs.TakeNext(config.rename, i);
        var from, to := config.rename[i].name, config.rename[i].value;
        var value := Get(headers, from);
        headers := Set(headers, from, None);
        headers := Set(headers, to, value);
      }
      assert config.rename[..|config.rename|] == config.rename;
    }

    method Replace()
      modifies this
      ensures headers == ReplaceAll(old(headers), config.replace)
    {
      ghost var h := headers;
      for i := 0 to |config.replace|
        invariant headers == ReplaceAll(h, config.replace[..i])
      {
        Seqs.TakeNext(config.replace, i);
        var name, value := config.replace[i].name, config.replace[i].value;
        if Get(headers, name).Some? {
          headers := Set(headers, name, Some(value));
        }
      }
      assert config.replace[..|config.replace|] == config.replace;
    }

    method AddMissing()
      modifies this
      ensures headers == AddAll(old(headers), config.add)
    {
      ghost var h := headers;
      for i := 0 to |config.add|
        invariant headers == AddAll(h, config.add[..i])
      {
        Seqs.TakeNext(config.add, i);
        var name, value := config.add[i].name, config.add[i].value;
        if Get(headers, name).None? {
          headers := Set(headers, name, Some(value));
        }
      }
      assert config.add[..|config.add|] == config.add;
    }

    method Append()
      modifies this
      ensures headers == AppendAll(old(headers), config.append)
    {
      ghost var h := headers;
      for i := 0 to |config.append|
        invariant headers == AppendAll(h, config.append[..i])
      {
        Seqs.TakeNext(config.append, i);
        var name, value := config.append[i].name, config.append[i].value;
        headers := Add(headers, name, value);
      }
      assert config.append[..|config.append|] == config.append;
    }

    /** The callback: its five loops, in order. */
    method OnHttpResponseHeaders()
      modifies this
      ensures headers == Transform(config, old(headers))
    {
      Remove();
      Rename();
      Replace();
      AddMissing();
      Append();
    }
  }

  // ----- What happens to one name -----

  ghost predicate Mentions(ps: seq<Pair>, n: string) {
    exists i :: 0 <= i < |ps| && Lower(ps[i].name) == n
  }

  ghost predicate Removed(names: seq<string>, n: string) {
    exists i :: 0 <= i < |names| && Lower(names[i]) == n
  }

  /** The value of the last pair for `n`. */
  function Last(ps: seq<Pair>, n: string): Option<string> {
    if ps == [] then None
    else if Lower(ps[|ps| - 1].name) == n then Some(ps[|ps| - 1].value)
    else Last(ps[..|ps| - 1], n)
  }

  /** The value of the first pair for `n`. */
  function First(ps: seq<Pair>, n: string): Option<string> {
    if ps == [] then None
    else if Lower(ps[0].name) == n then Some(ps[0].value)
    else First(ps[1..], n)
  }

  /** The values of all pairs for `n`, in order. */
  function All(ps: seq<Pair>, n: string): seq<string> {
    if ps == [] then []
    else (if Lower(ps[0].name) == n then [ps[0].value] else []) + All(ps[1..], n)
  }

  /** Where the values of a name come from: nowhere, another name's first value, or its own values. */
  datatype Source = Nowhere | FirstOf(name: string) | AllOf(name: string)

  /**
    Read the renames backwards: the last one to `n` names the origin to follow, and one from `n`
    that comes later leaves nothing.
  */
  function Origin(ps: seq<Pair>, n: string): Source {
    if ps == [] then AllOf(n)
    else
      var before, p := ps[..|ps| - 1], ps[|ps| - 1];
      if Lower(p.value) == n then
        match Origin(before, Lower(p.name))
        case AllOf(m) => FirstOf(m)
        case other => other
      else if Lower(p.name) == n then Nowhere
      else Origin(before, n)
  }

  function Head(vs: seq<string>): seq<string> {
    if vs == [] then [] else [vs[0]]
  }

  function Pick(source: Source, values: string -> seq<string>): seq<string> {
    match source
    case Nowhere => []
    case FirstOf(m) => Head(values(m))
    case AllOf(m) => values(m)
  }

  ghost function Kept(names: seq<string>, h: Map): string -> seq<string> {
    m => if Removed(names, m) then [] else Values(h, m)
  }

  /** What replace, add and append make of the values a name has by then. */
  function Finish(c: Config, n: string, base: seq<string>): seq<string> {
    var replaced := if base != [] && Last(c.replace, n).Some? then [Last(c.replace, n).value] else base;
    var added := if replaced == [] && First(c.add, n).Some? then [First(c.add, n).value] else replaced;
    added + All(c.append, n)
  }

  /** The closed form of the whole pipeline for one name. */
  ghost function Closed(c: Config, h: Map, n: string): seq<string> {
    Finish(c, n, Pick(Origin(c.rename, n), Kept(c.remove, h)))
  }

  lemma {:induction false} RemovePass(h: Map, names: seq<string>, n: string)
    ensures Values(RemoveAll(h, names), n) == if Removed(names, n) then [] else Values(h, n)
  {
    if names != [] {
      var before, last := names[..|names| - 1], names[|names| - 1];
      RemovePass(h, before, n);
      assert forall i | 0 <= i < |before| :: Lower(before[i]) == Lower(names[i]);
      assert Removed(names, n) <==> Removed(before, n) || Lower(last) == n;
    }
  }

  lemma RenameOneValues(h: Map, p: Pair, n: string)
    ensures Values(RenameOne(h, p.name, p.value), n) ==
      if Lower(p.value) == n then (if Get(h, p.name).Some? then [Values(h, Lower(p.name))[0]] else [])
      else if Lower(p.name) == n then []
      else Values(h, n)
  {
  }

  lemma {:induction false} RenamePass(h: Map, ps: seq<Pair>, n: string)
    ensures Values(RenameAll(h, ps), n) == Pick(Origin(ps, n), m => Values(h, m))
  {
    if ps != [] {
      var before, p := ps[..|ps| - 1], ps[|ps| - 1];
      RenamePass(h, before, n);
      RenamePass(h, before, Lower(p.name));
      RenameOneValues(RenameAll(h, before), p, n);
    }
  }

  lemma {:induction false} ReplacePass(h: Map, ps: seq<Pair>, n: string)
    ensures Values(ReplaceAll(h, ps), n)
         == if Values(h, n) != [] && Last(ps, n).Some? then [Last(ps, n).value] else Values(h, n)
  {
    if ps != [] {
      ReplacePass(h, ps[..|ps| - 1], n);
    }
  }

  lemma {:induction false} FirstSnoc(ps: seq<Pair>, p: Pair, n: string)
    ensures First(ps + [p], n) == if First(ps, n).Some? then First(ps, n)
                                  else if Lower(p.name) == n then Some(p.value) else None
  {
    if ps == [] {
      assert ps + [p] == [p];
    } else {
      FirstSnoc(ps[1..], p, n);
      assert (ps + [p])[1..] == ps[1..] + [p];
    }
  }

  lemma {:induction false} AllSnoc(ps: seq<Pair>, p: Pair, n: string)
    ensures All(ps + [p], n) == All(ps, n) + (if Lower(p.name) == n then [p.value] else [])
  {
    if ps == [] {
      assert ps + [p] == [p];
    } else {
      AllSnoc(ps[1..], p, n);
      assert (ps + [p])[1..] == ps[1..] + [p];
    }
  }

  lemma AddOneValues(h: Map, p: Pair, n: string)
    ensures Values(AddOne(h, p), n) == if Lower(p.name) == n && Values(h, n) == [] then [p.value] else Values(h, n)
  {
  }

  lemma {:induction false} AddPass(h: Map, ps: seq<Pair>, n: string)
    ensures Values(AddAll(h, ps), n)
         == if Values(h, n) == [] && First(ps, n).Some? then [First(ps, n).value] else Values(h, n)
  {
    if ps != [] {
      var before, p := ps[..|ps| - 1], ps[|ps| - 1];
      assert ps == before + [p];
      FirstSnoc(before, p, n);
      AddPass(h, before, n);
      AddOneValues(AddAll(h, before), p, n);
    }
  }

  lemma AddValues(h: Map, p: Pair, n: string)
    ensures Values(Add(h, p.name, p.value), n) == Values(h, n) + (if Lower(p.name) == n then [p.value] else [])
  {
    assert Values(h, n) + [] == Values(h, n);
  }

  lemma AppendOne(h: Map, p: Pair, n: string, vs: seq<string>, ws: seq<string>)
    requires Values(h, n) == vs + ws
    ensures Values(Add(h, p.name, p.value), n) == vs + (ws + (if Lower(p.name) == n then [p.value] else []))
  {
    AddValues(h, p, n);
    Seqs.Assoc(vs, ws, if Lower(p.name) == n then [p.value] else []);
  }

  lemma {:induction false} AppendPass(h: Map, ps: seq<Pair>, n: string)
    ensures Values(AppendAll(h, ps), n) == Values(h, n) + All(ps, n)
  {
    if ps == [] {
      Seqs.AppendEmpty(Values(h, n));
    } else {
      var before, p := ps[..|ps| - 1], ps[|ps| - 1];
      assert ps == before + [p];
      AllSnoc(before, p, n);
      AppendPass(h, before, n);
      AppendOne(AppendAll(h, before), p, n, Values(h, n), All(before, n));
    }
  }

  lemma RemoveRenamePasses(h: Map, names: seq<string>, ps: seq<Pair>, n: string)
    ensures Values(RenameAll(RemoveAll(h, names), ps), n) == Pick(Origin(ps, n), Kept(names, h))
  {
    RenamePass(RemoveAll(h, names), ps, n);
    match Origin(ps, n) {
      case Nowhere =>
      case FirstOf(m) => RemovePass(h, names, m);
      case AllOf(m) => RemovePass(h, names, m);
    }
  }

  /** The five loops in sequence give every name the values of the closed form. */
  lemma TransformIsClosed(c: Config, h: Map, n: string)
    ensures Values(Transform(c, h), n) == Closed(c, h, n)
  {
    RemoveRenamePasses(h, c.remove, c.rename, n);
    var h2 := RenameAll(RemoveAll(h, c.remove), c.rename);
    ReplacePass(h2, c.replace, n);
    var h3 := ReplaceAll(h2, c.replace);
    AddPass(h3, c.add, n);
    AppendPass(AddAll(h3, c.add), c.append, n);
  }

  // ----- Consequences -----

  lemma {:induction false} Unmentioned(ps: seq<Pair>, n: string)
    requires !Mentions(ps, n)
    ensures Last(ps, n).None? && First(ps, n).None? && All(ps, n) == []
    decreases |ps|
  {
    if ps != [] {
      assert Lower(ps[0].name) != n && Lower(ps[|ps| - 1].name) != n;
      assert forall i | 0 <= i < |ps| - 1 :: ps[1..][i] == ps[i + 1] && ps[..|ps| - 1][i] == ps[i];
      Unmentioned(ps[1..], n);
      Unmentioned(ps[..|ps| - 1], n);
    }
  }

  /** A name that no list mentions keeps its values. */
  lemma UnmentionedUnchanged(c: Config, h: Map, n: string)
    requires !Removed(c.remove, n) && !Mentions(c.replace, n) && !Mentions(c.add, n) && !Mentions(c.append, n)
    requires forall p | p in c.rename :: Lower(p.name) != n && Lower(p.value) != n
    ensures Values(Transform(c, h), n) == Values(h, n)
  {
    TransformIsClosed(c, h, n);
    Unmentioned(c.replace, n);
    Unmentioned(c.add, n);
    Unmentioned(c.append, n);
    UntouchedOrigin(c.rename, n);
  }

  lemma {:induction false} UntouchedOrigin(ps: seq<Pair>, n: string)
    requires forall p | p in ps :: Lower(p.name) != n && Lower(p.value) != n
    ensures Origin(ps, n) == AllOf(n)
  {
    if ps != [] {
      assert ps[|ps| - 1] in ps;
      UntouchedOrigin(ps[..|ps| - 1], n);
    }
  }

  /**
    Renaming a header that is not there deletes the target, so renaming twice loses what the first
    renaming moved, whatever the headers were.
  */
  lemma RenamingTwiceLosesTheHeader(h: Map, from: string, to: string)
    ensures Get(h, from).None? ==> Get(RenameOne(h, from, to), to).None?
    ensures Lower(from) != Lower(to) ==>
      var h' := RenameOne(RenameOne(h, from, to), from, to);
      Get(h', from).None? && Get(h', to).None?
  {
  }

  /** Where the values of a name come from, a removed origin being nowhere. */
  ghost function OriginOf(c: Config, n: string): Source {
    match Origin(c.rename, n)
    case Nowhere => Nowhere
    case FirstOf(m) => if Removed(c.remove, m) then Nowhere else FirstOf(m)
    case AllOf(m) => if Removed(c.remove, m) then Nowhere else AllOf(m)
  }

  predicate Agree(a: Option<string>, b: Option<string>) {
    a.Some? && b.Some? ==> a == b
  }

  /**
    Whether a second application leaves the name alone, whatever the headers were: what replaces it
    and what is added for it agree, and what its origin and the appended values demand is given.
  */
  ghost predicate Settled(c: Config, n: string) {
    var replace, add, plain := Last(c.replace, n), First(c.add, n), All(c.append, n) == [];
    match OriginOf(c, n)
    case Nowhere => true
    case AllOf(_) => Agree(replace, add) && (plain || (replace.Some? && add.Some?))
    case FirstOf(m) => Agree(replace, add) && (m != n ==> replace.Some? && add.Some?) && (plain || add.Some?)
  }

  lemma ClosedByOrigin(c: Config, h: Map, n: string)
    ensures Values(Transform(c, h), n) ==
      match OriginOf(c, n)
      case Nowhere => Finish(c, n, [])
      case FirstOf(m) => Finish(c, n, Head(Values(h, m)))
      case AllOf(m) => Finish(c, n, Values(h, m))
  {
    TransformIsClosed(c, h, n);
  }

  lemma {:induction false} OwnOrigin(ps: seq<Pair>, n: string)
    ensures Origin(ps, n).AllOf? ==> Origin(ps, n) == AllOf(n)
  {
    if ps != [] {
      OwnOrigin(ps[..|ps| - 1], n);
    }
  }

  /** A header is renamed to one place only. */
  lemma {:induction false} OriginsDiffer(ps: seq<Pair>, m: string, n: string)
    requires m != n && !Origin(ps, m).Nowhere? && !Origin(ps, n).Nowhere?
    ensures Origin(ps, m).name != Origin(ps, n).name
  {
    if ps != [] {
      var before, p := ps[..|ps| - 1], ps[|ps| - 1];
      OriginsDiffer(before, if Lower(p.value) == m then Lower(p.name) else m,
                            if Lower(p.value) == n then Lower(p.name) else n);
    }
  }

  lemma FinishTwice(c: Config, n: string, vs: seq<string>)
    requires var replace, add := Last(c.replace, n), First(c.add, n);
      Agree(replace, add) && (All(c.append, n) == [] || (replace.Some? && add.Some?))
    ensures Finish(c, n, Finish(c, n, vs)) == Finish(c, n, vs)
  {
  }

  lemma FinishFirstTwice(c: Config, n: string, vs: seq<string>)
    requires Agree(Last(c.replace, n), First(c.add, n)) && (All(c.append, n) == [] || First(c.add, n).Some?)
    requires |vs| <= 1
    ensures var once := Finish(c, n, vs); Finish(c, n, Head(once)) == once
  {
  }

  lemma FinishConstant(c: Config, n: string, vs: seq<string>, ws: seq<string>)
    requires Last(c.replace, n).Some? && Last(c.replace, n) == First(c.add, n)
    ensures Finish(c, n, vs) == Finish(c, n, ws)
  {
  }

  lemma SettledStays(c: Config, h: Map, n: string)
    requires Settled(c, n)
    ensures Values(Transform(c, Transform(c, h)), n) == Values(Transform(c, h), n)
  {
    var h' := Transform(c, h);
    ClosedByOrigin(c, h, n);
    ClosedByOrigin(c, h', n);
    OwnOrigin(c.rename, n);
    match OriginOf(c, n) {
      case Nowhere =>
      case AllOf(m) => FinishTwice(c, n, Values(h, n));
      case FirstOf(m) =>
        if m == n {
          FinishFirstTwice(c, n, Head(Values(h, n)));
        } else {
          FinishConstant(c, n, Head(Values(h, m)), Head(Values(h', m)));
        }
    }
  }

  /** Without headers, a second application changes the name if the values cannot be kept. */
  lemma FinishAgainMoves(c: Config, n: string)
    requires var replace, add := Last(c.replace, n), First(c.add, n);
      !(Agree(replace, add) && (All(c.append, n) == [] || (replace.Some? && add.Some?)))
    ensures Finish(c, n, Finish(c, n, [])) != Finish(c, n, [])
  {
    var once := Finish(c, n, []);
    var twice := Finish(c, n, once);
    assert |twice| > |once| || twice[0] != once[0];
  }

  lemma FinishFirstAgainMoves(c: Config, n: string)
    requires !(Agree(Last(c.replace, n), First(c.add, n)) && (All(c.append, n) == [] || First(c.add, n).Some?))
    ensures Finish(c, n, Head(Finish(c, n, []))) != Finish(c, n, [])
  {
    var once := Finish(c, n, []);
    var twice := Finish(c, n, Head(once));
    assert |twice| > |once| || twice[0] != once[0];
  }

  /** A value that ends up different from what a name without values gets. */
  function Fresh(c: Config, n: string): string {
    if First(c.add, n) == Some("") then "x" else ""
  }

  lemma FinishMoves(c: Config, n: string)
    requires !(Last(c.replace, n).Some? && Last(c.replace, n) == First(c.add, n))
    ensures Finish(c, n, [Fresh(c, n)]) != Finish(c, n, [])
  {
    var none, one := Finish(c, n, []), Finish(c, n, [Fresh(c, n)]);
    assert |one| > |none| || one[0] != none[0];
  }

  lemma FeedsOneName(c: Config, m: string, n: string)
    requires OriginOf(c, n) == FirstOf(m) && m != n
    ensures OriginOf(c, m).Nowhere? || OriginOf(c, m).name != m
  {
    if !Origin(c.rename, m).Nowhere? {
      OriginsDiffer(c.rename, m, n);
    }
  }

  /** What a name becomes depends on its origin only. */
  lemma SameOriginSameValues(c: Config, h0: Map, h1: Map, n: string)
    requires OriginOf(c, n).Nowhere? || Values(h0, OriginOf(c, n).name) == Values(h1, OriginOf(c, n).name)
    ensures Values(Transform(c, h0), n) == Values(Transform(c, h1), n)
  {
    ClosedByOrigin(c, h0, n);
    ClosedByOrigin(c, h1, n);
  }

  /** A name fed by another: no headers at all, or one header of that other name, is a witness. */
  lemma FedMoves(c: Config, n: string, m: string) returns (h: Map)
    requires OriginOf(c, n) == FirstOf(m) && m != n
    requires !(Last(c.replace, n).Some? && Last(c.replace, n) == First(c.add, n))
    ensures Values(Transform(c, Transform(c, h)), n) != Values(Transform(c, h), n)
  {
    var h0: Map, h1: Map := map[], map[m := [Fresh(c, n)]];
    var t0, t1 := Transform(c, h0), Transform(c, h1);
    FeedsOneName(c, m, n);
    SameOriginSameValues(c, h0, h1, m);
    ClosedByOrigin(c, h0, n);
    ClosedByOrigin(c, h1, n);
    ClosedByOrigin(c, t0, n);
    ClosedByOrigin(c, t1, n);
    assert Values(h1, m) == [Fresh(c, n)];
    FinishMoves(c, n);
    h := if Values(Transform(c, t0), n) != Values(t0, n) then h0 else h1;
  }

  lemma UnsettledMoves(c: Config, n: string) returns (h: Map)
    requires !Settled(c, n)
    ensures Values(Transform(c, Transform(c, h)), n) != Values(Transform(c, h), n)
  {
    OwnOrigin(c.rename, n);
    h := map[];
    ClosedByOrigin(c, h, n);
    ClosedByOrigin(c, Transform(c, h), n);
    match OriginOf(c, n) {
      case AllOf(_) => FinishAgainMoves(c, n);
      case FirstOf(m) =>
        if m != n && !(Last(c.replace, n).Some? && Last(c.replace, n) == First(c.add, n)) {
          h := FedMoves(c, n, m);
        } else {
          FinishFirstAgainMoves(c, n);
        }
    }
  }

  /** For every configuration: applying the pipeline twice equals applying it once iff every name is settled. */
  lemma IdempotentIffSettled(c: Config)
    ensures (forall h :: Transform(c, Transform(c, h)) == Transform(c, h)) <==> forall n :: Settled(c, n)
  {
    if forall n :: Settled(c, n) {
      forall h ensures Transform(c, Transform(c, h)) == Transform(c, h) {
        forall n ensures Values(Transform(c, Transform(c, h)), n) == Values(Transform(c, h), n) {
          SettledStays(c, h, n);
        }
        SameValuesSameMap(Transform(c, Transform(c, h)), Transform(c, h));
      }
    } else {
      var n :| !Settled(c, n);
      var h := UnsettledMoves(c, n);
    }
  }
}
