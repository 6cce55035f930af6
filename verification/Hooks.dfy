/** The hook chains of kong/hooks.lua. */
module Hooks {
  import opened Wrappers
  import opened LuaValues

  /** Values in `table.pack` form. */
  type Pack = seq<Lua>

  /** A low-level hook sees the accumulator (None is nil) and may return nil. */
  datatype Hook =
    | Ordinary(f: Pack -> Pack)
    | LowLevel(g: (Option<Pack>, Pack) -> Option<Pack>)

  /** The test in `wrap_hook`: an earlier hook's first value is nil or false. */
  predicate Failed(acc: Option<Pack>) {
    acc.Some? && !Truthy(Nth(acc.value, 0))
  }

  /** The values of a hook that failed: none, or a first one that is nil or false. */
  predicate Stops(vs: Pack) {
    vs == [] || vs[0] == Nil || vs[0] == Bool(false)
  }

  function Call(h: Hook, acc: Option<Pack>, args: Pack): Option<Pack> {
    match h
    case Ordinary(f) => if Failed(acc) then acc else Some(f(args))
    case LowLevel(g) => g(acc, args)
  }

  /** The accumulator after a chain of hooks. */
  function Chain(hs: seq<Hook>, acc: Option<Pack>, args: Pack): Option<Pack> {
    if hs == [] then acc else Chain(hs[1..], Call(hs[0], acc, args), args)
  }

  /** Whether the function behind hook `i` is called. */
  ghost predicate Called(hs: seq<Hook>, args: Pack, i: nat)
    requires i < |hs|
  {
    hs[i].LowLevel? || !(Chain(hs[..i], None, args).Some? && Stops(Chain(hs[..i], None, args).value))
  }

  class Registry {
    var hooks: map<string, seq<Hook>>

    /** No registered list is empty. */
    ghost predicate Valid()
      reads this
    {
      forall name | name in hooks :: hooks[name] != []
    }

    constructor ()
      ensures Valid() && hooks == map[]
    {
      hooks := map[];
    }

    method RegisterHook(name: string, hook: Hook)
      requires Valid()
      modifies this
      ensures Valid()
      ensures hooks == old(hooks)[name := (if name in old(hooks) then old(hooks)[name] else []) + [hook]]
    {
      if name !in hooks {
        hooks := hooks[name := []];
      }
      hooks := hooks[name := hooks[name] + [hook]];
    }

    method ClearHooks()
      modifies this
      ensures Valid() && hooks == map[]
    {
      hooks := map[];
    }

    /** `calls` lists, in order, the hooks whose function was called. */
    method RunHook(name: string, args: Pack) returns (r: FnResult, calls: seq<nat>)
      requires Valid()
      ensures name !in hooks ==> r == Values([Nth(args, 0)]) && calls == []
      ensures name in hooks ==>
        (match Chain(hooks[name], None, args)
         case None => r.Raise?
         case Some(vs) => r == Values(vs))
      ensures name in hooks ==>
        (forall i: nat :: i in calls <==> i < |hooks[name]| && Called(hooks[name], args, i))
        && forall j, k | 0 <= j < k < |calls| :: calls[j] < calls[k]
    {
      calls := [];
      if name !in hooks {
        return Values([Nth(args, 0)]), [];
      }
      var hs := hooks[name];
      var acc: Option<Pack> := None;
      for i := 0 to |hs|
        invariant acc == Chain(hs[..i], None, args)
        invariant forall k: nat :: k in calls <==> k < i && Called(hs, args, k)
        invariant forall j, k | 0 <= j < k < |calls| :: calls[j] < calls[k]
        invariant forall j | 0 <= j < |calls| :: calls[j] < i
      {
        ChainSnoc(hs[..i], hs[i], None, args);
        assert hs[..i + 1] == hs[..i] + [hs[i]];
        match hs[i] {
          case LowLevel(g) =>
            acc := g(acc, args);
            calls := calls + [i];
          case Ordinary(f) =>
            if !(acc.Some? && !Truthy(Nth(acc.value, 0))) {
              acc := Some(f(args));
              calls := calls + [i];
            }
        }
      }
      assert hs[..|hs|] == hs;
      if acc.None? {
        return Raise(Str("attempt to index local 'acc' (a nil value)")), calls;
      }
      return Values(acc.value), calls;
    }
  }

  lemma {:induction false} ChainSnoc(hs: seq<Hook>, h: Hook, acc: Option<Pack>, args: Pack)
    ensures Chain(hs + [h], acc, args) == Call(h, Chain(hs, acc, args), args)
    decreases |hs|
  {
    if hs == [] {
      assert (hs + [h])[1..] == [];
    } else {
      ChainSnoc(hs[1..], h, Call(hs[0], acc, args), args);
      assert (hs + [h])[1..] == hs[1..] + [h];
    }
  }

  predicate AllOrdinary(hs: seq<Hook>) {
    forall i | 0 <= i < |hs| :: hs[i].Ordinary?
  }

  /** What hook `i` returns, run on its own. */
  function Result(hs: seq<Hook>, args: Pack, i: nat): Pack
    requires AllOrdinary(hs) && i < |hs|
  {
    hs[i].f(args)
  }

  /** `i` is the first hook that fails when every hook is run on its own. */
  ghost predicate FirstFailing(hs: seq<Hook>, args: Pack, i: nat)
    requires AllOrdinary(hs)
  {
    i < |hs| && Stops(Result(hs, args, i))
    && forall j: nat | j < i :: !Stops(Result(hs, args, j))
  }

  /**
    Ordinary hooks after any accumulator: a failed one passes through; otherwise the result is the
    first failing hook's, or the last's if none fails.
  */
  lemma {:induction false} OrdinaryHooks(hs: seq<Hook>, acc: Option<Pack>, args: Pack)
    requires AllOrdinary(hs)
    ensures (acc.Some? && Stops(acc.value)) || hs == [] ==> Chain(hs, acc, args) == acc
    ensures !(acc.Some? && Stops(acc.value)) ==>
      && (forall i: nat :: FirstFailing(hs, args, i) ==> Chain(hs, acc, args) == Some(Result(hs, args, i)))
      && (hs != [] && (forall i: nat :: !FirstFailing(hs, args, i)) ==>
            Chain(hs, acc, args) == Some(Result(hs, args, |hs| - 1)))
    decreases |hs|
  {
    if hs != [] {
      var rest, next := hs[1..], Call(hs[0], acc, args);
      OrdinaryHooks(rest, next, args);
      assert forall i: nat | i < |rest| :: Result(rest, args, i) == Result(hs, args, i + 1);
      if !Failed(acc) {
        if Failed(next) {
          assert FirstFailing(hs, args, 0);
        } else {
          forall i: nat ensures FirstFailing(hs, args, i) <==> i > 0 && FirstFailing(rest, args, i - 1) {
            FirstFailingShift(hs, args, i);
          }
          forall i: nat | FirstFailing(rest, args, i) ensures FirstFailing(hs, args, i + 1) {
          }
        }
      }
    }
  }

  lemma FirstFailingShift(hs: seq<Hook>, args: Pack, i: nat)
    requires AllOrdinary(hs) && hs != [] && !Stops(Result(hs, args, 0))
    ensures FirstFailing(hs, args, i) <==> i > 0 && FirstFailing(hs[1..], args, i - 1)
  {
    var rest := hs[1..];
    assert forall k: nat | k < |rest| :: Result(rest, args, k) == Result(hs, args, k + 1);
    if i > 0 && FirstFailing(rest, args, i - 1) {
      forall j: nat | j < i ensures !Stops(Result(hs, args, j)) {
        assert j > 0 ==> Result(rest, args, j - 1) == Result(hs, args, j);
      }
    }
    if FirstFailing(hs, args, i) {
      forall j: nat | j < i - 1 ensures !Stops(Result(rest, args, j)) {
        assert Result(rest, args, j) == Result(hs, args, j + 1);
      }
    }
  }

  /** With ordinary hooks only, exactly those up to the first failing one are called. */
  lemma CalledUpToFirstFailure(hs: seq<Hook>, args: Pack, i: nat)
    requires AllOrdinary(hs) && i < |hs|
    ensures Called(hs, args, i) <==> forall j: nat | j < i :: !Stops(Result(hs, args, j))
  {
    var before := hs[..i];
    OrdinaryHooks(before, None, args);
    assert forall j: nat | j < i :: Result(before, args, j) == Result(hs, args, j);
    if j: nat :| j < i && Stops(Result(hs, args, j)) {
      var k := LeastFailing(before, args, j);
      assert Chain(before, None, args) == Some(Result(before, args, k));
    }
  }

  lemma {:induction false} LeastFailing(hs: seq<Hook>, args: Pack, j: nat) returns (k: nat)
    requires AllOrdinary(hs) && j < |hs| && Stops(Result(hs, args, j))
    ensures FirstFailing(hs, args, k)
  {
    k := j;
    if i: nat :| i < j && Stops(Result(hs, args, i)) {
      k := LeastFailing(hs, args, i);
    }
  }

  /** A low-level hook decides afresh: what ran before it matters only through what it makes of it. */
  lemma {:induction false} LowLevelDecides(before: seq<Hook>, g: (Option<Pack>, Pack) -> Option<Pack>, after: seq<Hook>,
                                           acc: Option<Pack>, args: Pack)
    ensures Chain(before + [LowLevel(g)] + after, acc, args)
         == Chain(after, g(Chain(before, acc, args), args), args)
    decreases |before|
  {
    var hs := before + [LowLevel(g)] + after;
    if before == [] {
      assert hs[1..] == after;
    } else {
      LowLevelDecides(before[1..], g, after, Call(before[0], acc, args), args);
      assert hs[1..] == before[1..] + [LowLevel(g)] + after;
    }
  }

  /** Unpacking fails, on a nil accumulator, iff the last hook is a low-level one that returned nil. */
  lemma UnpackDefined(hs: seq<Hook>, args: Pack)
    requires hs != []
    ensures Chain(hs, None, args).None? <==>
      var last := hs[|hs| - 1];
      last.LowLevel? && last.g(Chain(hs[..|hs| - 1], None, args), args).None?
  {
    ChainSnoc(hs[..|hs| - 1], hs[|hs| - 1], None, args);
    assert hs == hs[..|hs| - 1] + [hs[|hs| - 1]];
  }
}
