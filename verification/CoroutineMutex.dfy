/**
  `with_coroutine_mutex` of kong/concurrency.lua as a transition system over any number of
  calls and lock names. A step is a stretch of code between two points where a coroutine can
  yield. A call made inside another call's `fn` names that call as its parent, and the parent's
  `fn` cannot finish before it.

  Contract of the semaphore primitive: it starts at 0 permits, `post(n)` adds n, `wait` takes one
  permit, or fails with "timeout", or fails with another error.
*/
module CoroutineMutex {
  import opened LuaValues
  import opened Wrappers

  type CallId = nat
  type SemId = nat

  datatype OnTimeout = GiveUp | RunUnlocked | ReturnTrue

  datatype Config =
    | Invalid(msg: string)
    | Config(name: string, timeout: real, onTimeout: OnTimeout)

  /** The argument checks, in the source's order. */
  function Check(opts: Lua): Config {
    if !opts.Table? then Invalid("opts must be a table")
    else
      var name, timeout, mode := Field(opts, "name"), Field(opts, "timeout"), Field(opts, "on_timeout");
      if !name.Str? then Invalid("opts.name is required and must be a string")
      else if Truthy(timeout) && !timeout.Number? then Invalid("opts.timeout must be a number")
      else if Truthy(mode) && mode != Str("run_unlocked") && mode != Str("return_true") then
        Invalid("invalid value for opts.on_timeout")
      else
        Config(name.s,
               if Truthy(timeout) then timeout.n else 60.0,
               if mode == Str("run_unlocked") then RunUnlocked
               else if mode == Str("return_true") then ReturnTrue
               else GiveUp)
  }

  /** Why a call ended. */
  datatype Exit =
    | BadOpts(msg: string)
    | NoSemaphore(err: string)
    | WaitFailed(err: string)
    | TimedOut
    | TimedOutTrue
    | Ran(r: FnResult)        // through pcall
    | RanDirectly(r: FnResult) // `return fn()` in a phase that cannot yield

  function Answer(name: string, exit: Exit): Reply {
    match exit
    case BadOpts(msg) => Error(Str(msg))
    case NoSemaphore(err) => Return([Nil, Str("failed to create " + name + " lock: " + err)])
    case WaitFailed(err) => Return([Nil, Str("error attempting to acquire " + name + " lock: " + err)])
    case TimedOut => Return([Nil, Str("timeout acquiring " + name + " lock")])
    case TimedOutTrue => Return([Bool(true)])
    case Ran(r) => Protected(r)
    case RanDirectly(r) => Unprotected(r)
  }

  /** Where a call stands. `sem` is its local variable `semaphore`, `locked` its `lok`. */
  datatype Pc =
    | Waiting(sem: SemId)
    | Running(sem: SemId, locked: bool)
    | Direct
    | Done(exit: Exit)

  datatype Call = Call(opts: Lua, parent: Option<CallId>, pc: Pc, runs: nat)

  datatype State = State(semaphores: map<string, SemId>, permits: seq<nat>, calls: map<CallId, Call>)

  datatype Event =
    | Enter(c: CallId, opts: Lua, yieldable: bool, parent: Option<CallId>, newErr: Option<string>)
    | Acquire(c: CallId)
    | WaitError(c: CallId, err: string)
    | Timeout(c: CallId)
    | Finish(c: CallId, r: FnResult)

  /** The step a caller takes when `wait` returns: with a permit, or with this error. */
  function WakeEvent(c: CallId, err: Option<string>): Event {
    if err.None? then Acquire(c)
    else if err.value == "timeout" then Timeout(c)
    else WaitError(c, err.value)
  }

  function Init(): State {
    State(map[], [], map[])
  }

  predicate Inside(call: Call) {
    call.pc.Running? || call.pc.Direct?
  }

  /** `e` can happen in `s`. A child starts while its parent's `fn` runs, and ends before it. */
  ghost predicate Enabled(s: State, e: Event) {
    match e
    case Enter(c, _, _, parent, _) =>
      c !in s.calls && (parent.Some? ==> parent.value in s.calls && Inside(s.calls[parent.value]))
    case Acquire(c) =>
      c in s.calls && s.calls[c].pc.Waiting? && s.calls[c].pc.sem < |s.permits|
      && 0 < s.permits[s.calls[c].pc.sem]
    case WaitError(c, err) => c in s.calls && s.calls[c].pc.Waiting? && err != "timeout"
    case Timeout(c) => c in s.calls && s.calls[c].pc.Waiting?
    case Finish(c, _) =>
      c in s.calls && Inside(s.calls[c])
      && (s.calls[c].pc.Running? ==> s.calls[c].pc.sem < |s.permits|)
      && forall d | d in s.calls :: s.calls[d].parent == Some(c) ==> s.calls[d].pc.Done?
  }

  function EnterPc(s: State, cfg: Config, yieldable: bool, newErr: Option<string>): Pc {
    match cfg
    case Invalid(msg) => Done(BadOpts(msg))
    case Config(name, _, _) =>
      if !yieldable then Direct
      else if name in s.semaphores then Waiting(s.semaphores[name])
      else if newErr.Some? then Done(NoSemaphore(newErr.value))
      else Waiting(|s.permits|)
  }

  /** The semaphore of a name is created, stored and given its permit in one step. */
  predicate Creates(s: State, cfg: Config, yieldable: bool, newErr: Option<string>) {
    cfg.Config? && yieldable && cfg.name !in s.semaphores && newErr.None?
  }

  function Step(s: State, e: Event): State
    requires Enabled(s, e)
  {
    match e
    case Enter(c, opts, yieldable, parent, newErr) =>
      var cfg := Check(opts);
      var pc := EnterPc(s, cfg, yieldable, newErr);
      var calls := s.calls[c := Call(opts, parent, pc, if pc.Direct? then 1 else 0)];
      if Creates(s, cfg, yieldable, newErr)
      then State(s.semaphores[cfg.name := |s.permits|], s.permits + [1], calls)
      else s.(calls := calls)
    case Acquire(c) =>
      var sem := s.calls[c].pc.sem;
      State(s.semaphores, s.permits[sem := s.permits[sem] - 1],
            s.calls[c := s.calls[c].(pc := Running(sem, true), runs := s.calls[c].runs + 1)])
    case WaitError(c, err) => s.(calls := s.calls[c := s.calls[c].(pc := Done(WaitFailed(err)))])
    case Timeout(c) =>
      var call := s.calls[c];
      var cfg := Check(call.opts);
      s.(calls := s.calls[c :=
        if cfg.Config? && cfg.onTimeout == RunUnlocked
        then call.(pc := Running(call.pc.sem, false), runs := call.runs + 1)
        else if cfg.Config? && cfg.onTimeout == ReturnTrue then call.(pc := Done(TimedOutTrue))
        else call.(pc := Done(TimedOut))])
    case Finish(c, r) =>
      var call := s.calls[c];
      match call.pc
      case Running(sem, true) =>
        State(s.semaphores, s.permits[sem := s.permits[sem] + 1], s.calls[c := call.(pc := Done(Ran(r)))])
      case Running(_, false) => s.(calls := s.calls[c := call.(pc := Done(Ran(r)))])
      case _ => s.(calls := s.calls[c := call.(pc := Done(RanDirectly(r)))])
  }

  // ----- Runs -----

  ghost predicate Legal(s: State, es: seq<Event>)
    decreases |es|
  {
    es == [] || (Enabled(s, es[0]) && Legal(Step(s, es[0]), es[1..]))
  }

  ghost function After(s: State, es: seq<Event>): State
    requires Legal(s, es)
    decreases |es|
  {
    if es == [] then s else After(Step(s, es[0]), es[1..])
  }

  ghost predicate Reachable(s: State) {
    exists es :: Legal(Init(), es) && After(Init(), es) == s
  }

  // ----- The invariant -----

  ghost function Holders(calls: map<CallId, Call>, sem: SemId): set<CallId> {
    set c | c in calls && calls[c].pc == Running(sem, true)
  }

  /** Every permit is either in the semaphore or with exactly one caller inside `fn`. */
  ghost predicate Conserved(s: State) {
    forall i | 0 <= i < |s.permits| :: s.permits[i] + |Holders(s.calls, i)| == 1
  }

  /** A call that waits or runs refers to the one semaphore its name has in the table. */
  ghost predicate RefersToTable(s: State, call: Call) {
    call.pc.Waiting? || call.pc.Running? ==>
      var cfg := Check(call.opts);
      cfg.Config? && cfg.name in s.semaphores && s.semaphores[cfg.name] == call.pc.sem
      && (call.pc.Running? && !call.pc.locked ==> cfg.onTimeout == RunUnlocked)
  }

  ghost predicate TableOk(s: State) {
    && (forall n | n in s.semaphores :: s.semaphores[n] < |s.permits|)
    && (forall m, n | m in s.semaphores && n in s.semaphores :: s.semaphores[m] == s.semaphores[n] ==> m == n)
  }

  ghost predicate RanDone(exit: Exit) {
    exit.Ran? || exit.RanDirectly?
  }

  /** `fn` has run once if the call got inside, and not at all otherwise. */
  ghost predicate RunsExact(call: Call) {
    call.runs == (if Inside(call) || (call.pc.Done? && RanDone(call.pc.exit)) then 1 else 0)
  }

  ghost predicate Inv(s: State) {
    && TableOk(s)
    && Conserved(s)
    && (forall c | c in s.calls :: RefersToTable(s, s.calls[c]) && RunsExact(s.calls[c]))
  }

  function Count(b: bool): nat {
    if b then 1 else 0
  }

  lemma HoldersAfterUpdate(calls: map<CallId, Call>, c: CallId, call: Call, sem: SemId)
    ensures |Holders(calls[c := call], sem)| + Count(c in Holders(calls, sem))
         == |Holders(calls, sem)| + Count(call.pc == Running(sem, true))
  {
    var held := Holders(calls, sem);
    if call.pc == Running(sem, true) {
      assert Holders(calls[c := call], sem) == held + {c};
    } else {
      assert Holders(calls[c := call], sem) == held - {c};
    }
  }

  lemma StepKeepsTable(s: State, e: Event)
    requires Inv(s) && Enabled(s, e)
    ensures TableOk(Step(s, e))
  {
  }

  /** A step changes the record of its own call only. */
  lemma StepChangesOneCall(s: State, e: Event)
    requires Enabled(s, e)
    ensures e.c in Step(s, e).calls
    ensures Step(s, e).calls == s.calls[e.c := Step(s, e).calls[e.c]]
  {
  }

  /** What a step does to one semaphore's permits is undone by what it does to its holders. */
  lemma PermitsMoveWithHolders(s: State, e: Event, i: SemId)
    requires Enabled(s, e) && i < |s.permits|
    ensures i < |Step(s, e).permits| && e.c in Step(s, e).calls
    ensures Step(s, e).permits[i] + Count(Step(s, e).calls[e.c].pc == Running(i, true))
         == s.permits[i] + Count(e.c in Holders(s.calls, i))
  {
  }

  lemma FreshSemaphoreFree(s: State, e: Event, i: SemId)
    requires Inv(s) && Enabled(s, e) && |s.permits| <= i < |Step(s, e).permits|
    ensures Step(s, e).permits[i] == 1 && Holders(Step(s, e).calls, i) == {}
  {
    FreshSemaphoreUnheld(s, i);
    forall c | c in Holders(Step(s, e).calls, i) ensures c in Holders(s.calls, i) {
    }
  }

  lemma StepConserves(s: State, e: Event)
    requires Inv(s) && Enabled(s, e)
    ensures Conserved(Step(s, e))
  {
    StepChangesOneCall(s, e);
    forall i | 0 <= i < |Step(s, e).permits|
      ensures Step(s, e).permits[i] + |Holders(Step(s, e).calls, i)| == 1
    {
      if i < |s.permits| {
        HoldersAfterUpdate(s.calls, e.c, Step(s, e).calls[e.c], i);
        PermitsMoveWithHolders(s, e, i);
      } else {
        FreshSemaphoreFree(s, e, i);
      }
    }
  }

  lemma StepKeepsCalls(s: State, e: Event, c: CallId)
    requires Inv(s) && Enabled(s, e) && c in Step(s, e).calls
    ensures RefersToTable(Step(s, e), Step(s, e).calls[c]) && RunsExact(Step(s, e).calls[c])
  {
    if c == e.c {
      StepKeepsOwnCall(s, e);
    } else {
      StepChangesOneCall(s, e);
      assert RefersToTable(s, s.calls[c]) && RunsExact(s.calls[c]);
    }
  }

  lemma StepKeepsOwnCall(s: State, e: Event)
    requires Inv(s) && Enabled(s, e)
    ensures e.c in Step(s, e).calls
    ensures RefersToTable(Step(s, e), Step(s, e).calls[e.c]) && RunsExact(Step(s, e).calls[e.c])
  {
    if !e.Enter? {
      assert RefersToTable(s, s.calls[e.c]) && RunsExact(s.calls[e.c]);
    }
  }

  lemma StepKeepsInv(s: State, e: Event)
    requires Inv(s) && Enabled(s, e)
    ensures Inv(Step(s, e))
  {
    StepKeepsTable(s, e);
    StepConserves(s, e);
    forall c | c in Step(s, e).calls
      ensures RefersToTable(Step(s, e), Step(s, e).calls[c]) && RunsExact(Step(s, e).calls[c])
    {
      StepKeepsCalls(s, e, c);
    }
  }

  lemma FreshSemaphoreUnheld(s: State, sem: SemId)
    requires Inv(s) && |s.permits| <= sem
    ensures Holders(s.calls, sem) == {}
  {
    forall c | c in s.calls ensures s.calls[c].pc != Running(sem, true) {
      assert RefersToTable(s, s.calls[c]);
    }
  }

  /** The invariant holds after every run. */
  lemma {:induction false} RunsKeepInv(s: State, es: seq<Event>)
    requires Inv(s) && Legal(s, es)
    ensures Inv(After(s, es))
    decreases |es|
  {
    if es != [] {
      StepKeepsInv(s, es[0]);
      RunsKeepInv(Step(s, es[0]), es[1..]);
    }
  }

  lemma ReachableInv(s: State)
    requires Reachable(s)
    ensures Inv(s)
  {
    var es :| Legal(Init(), es) && After(Init(), es) == s;
    RunsKeepInv(Init(), es);
  }

  // ----- Safety over every run -----

  ghost predicate Holds(s: State, c: CallId, name: string) {
    c in s.calls && s.calls[c].pc.Running? && s.calls[c].pc.locked
    && Check(s.calls[c].opts).Config? && Check(s.calls[c].opts).name == name
  }

  /** At most one call holds a name, and while one does its semaphore has no permit. */
  lemma MutualExclusion(s: State, c: CallId, d: CallId, name: string)
    requires Reachable(s) && Holds(s, c, name) && Holds(s, d, name)
    ensures c == d
    ensures name in s.semaphores && s.semaphores[name] < |s.permits| && s.permits[s.semaphores[name]] == 0
  {
    ReachableInv(s);
    assert RefersToTable(s, s.calls[c]) && RefersToTable(s, s.calls[d]);
    var held := Holders(s.calls, s.semaphores[name]);
    assert c in held && d in held;
    assert |held - {c}| == |held| - 1;
    assert held - {c} == {};
  }

  /** No permit is lost: a created semaphore has its permit exactly when nobody holds the name. */
  lemma FreeIffUnheld(s: State, name: string)
    requires Reachable(s) && name in s.semaphores
    ensures s.semaphores[name] < |s.permits|
    ensures s.permits[s.semaphores[name]] == 1 <==> !exists c :: Holds(s, c, name)
  {
    ReachableInv(s);
    var held := Holders(s.calls, s.semaphores[name]);
    forall c ensures Holds(s, c, name) <==> c in held {
      if c in s.calls {
        assert RefersToTable(s, s.calls[c]);
      }
    }
    if held != {} {
      var c :| c in held;
      assert Holds(s, c, name);
    }
  }

  /** A name's semaphore, once created, is the same in every later state. */
  lemma {:induction false} SemaphoresNeverReplaced(s: State, es: seq<Event>, name: string)
    requires Legal(s, es) && name in s.semaphores
    ensures name in After(s, es).semaphores && After(s, es).semaphores[name] == s.semaphores[name]
    decreases |es|
  {
    if es != [] {
      SemaphoresNeverReplaced(Step(s, es[0]), es[1..], name);
    }
  }

  /** Ending a call posts exactly when it had acquired, whatever `fn` returned or raised. */
  lemma FinishPostsIffLocked(s: State, c: CallId, r: FnResult)
    requires Reachable(s) && Enabled(s, Finish(c, r))
    ensures var s' := Step(s, Finish(c, r));
      if s.calls[c].pc.Running? && s.calls[c].pc.locked
      then s.permits[s.calls[c].pc.sem] == 0 && s'.permits == s.permits[s.calls[c].pc.sem := 1]
      else s'.permits == s.permits
  {
    ReachableInv(s);
    if s.calls[c].pc.Running? && s.calls[c].pc.locked {
      assert c in Holders(s.calls, s.calls[c].pc.sem);
    }
  }

  /** How a call ended agrees with its options. */
  ghost predicate ExitFits(call: Call) {
    call.pc.Done? ==>
      var cfg := Check(call.opts);
      match call.pc.exit
      case BadOpts(msg) => cfg == Invalid(msg)
      case TimedOut => cfg.Config? && cfg.onTimeout == GiveUp
      case TimedOutTrue => cfg.Config? && cfg.onTimeout == ReturnTrue
      case _ => cfg.Config?
  }

  /** A call in a phase that cannot yield has passed the argument checks. */
  ghost predicate DirectFits(call: Call) {
    call.pc.Direct? ==> Check(call.opts).Config?
  }

  ghost predicate ExitsFit(s: State) {
    forall c | c in s.calls :: ExitFits(s.calls[c]) && DirectFits(s.calls[c])
  }

  lemma StepKeepsExits(s: State, e: Event)
    requires Inv(s) && ExitsFit(s) && Enabled(s, e)
    ensures ExitsFit(Step(s, e))
  {
    StepChangesOneCall(s, e);
    assert e.c in s.calls ==> RefersToTable(s, s.calls[e.c]);
    var call := Step(s, e).calls[e.c];
    assert ExitFits(call) && DirectFits(call);
  }

  lemma {:induction false} RunsKeepExits(s: State, es: seq<Event>)
    requires Inv(s) && ExitsFit(s) && Legal(s, es)
    ensures ExitsFit(After(s, es))
    decreases |es|
  {
    if es != [] {
      StepKeepsInv(s, es[0]);
      StepKeepsExits(s, es[0]);
      RunsKeepExits(Step(s, es[0]), es[1..]);
    }
  }

  /**
    `fn` runs at most once a call. A finished call never ran it exactly when its options were
    bad, its semaphore could not be created, or the wait failed or timed out; and a timeout keeps
    `fn` from running only if the call did not ask to run unlocked.
  */
  lemma FnRunsAtMostOnce(s: State, c: CallId)
    requires Reachable(s) && c in s.calls
    ensures s.calls[c].runs <= 1
    ensures s.calls[c].pc.Done? ==>
      (s.calls[c].runs == 0 <==>
        var exit := s.calls[c].pc.exit;
        exit.BadOpts? || exit.NoSemaphore? || exit.WaitFailed? || exit.TimedOut? || exit.TimedOutTrue?)
    ensures ExitFits(s.calls[c])
    ensures s.calls[c].pc.Running? && !s.calls[c].pc.locked ==>
      Check(s.calls[c].opts).Config? && Check(s.calls[c].opts).onTimeout == RunUnlocked
  {
    ReachableInv(s);
    assert RunsExact(s.calls[c]) && RefersToTable(s, s.calls[c]);
    var es :| Legal(Init(), es) && After(Init(), es) == s;
    RunsKeepExits(Init(), es);
  }

  // ----- What the options and outcomes mean for the caller -----

  /** What a call that is over answers. */
  function ReplyOf(call: Call): Option<Reply> {
    if call.pc.Done? then Some(Answer(NameOf(call), call.pc.exit)) else None
  }

  predicate NilOrFalse(v: Lua) {
    v == Nil || v == Bool(false)
  }

  /** The options a call may be given. */
  predicate Accepted(opts: Lua) {
    && opts.Table? && Field(opts, "name").Str?
    && (Field(opts, "timeout").Number? || NilOrFalse(Field(opts, "timeout")))
    && (NilOrFalse(Field(opts, "on_timeout")) || Field(opts, "on_timeout") == Str("run_unlocked")
        || Field(opts, "on_timeout") == Str("return_true"))
  }

  /** Rejected options raise, with the message of the first check that fails. */
  lemma RejectedOptionsRaise(s: State, c: CallId, opts: Lua, yieldable: bool, parent: Option<CallId>,
                             newErr: Option<string>)
    requires Enabled(s, Enter(c, opts, yieldable, parent, newErr)) && !Accepted(opts)
    ensures var s' := Step(s, Enter(c, opts, yieldable, parent, newErr));
      && s' == s.(calls := s'.calls) && c in s'.calls && s'.calls[c].runs == 0
      && ReplyOf(s'.calls[c]) == Some(Error(Str(
           if !opts.Table? then "opts must be a table"
           else if !Field(opts, "name").Str? then "opts.name is required and must be a string"
           else if !Field(opts, "timeout").Number? && !NilOrFalse(Field(opts, "timeout")) then
             "opts.timeout must be a number"
           else "invalid value for opts.on_timeout")))
  {
  }

  /**
    A call with accepted options runs `fn` at once in a phase that cannot yield; else it waits for its
    name's semaphore, which it creates with one permit if there is none, or ends if that fails.
  */
  lemma AcceptedOptionsEnter(s: State, c: CallId, opts: Lua, yieldable: bool, parent: Option<CallId>,
                             newErr: Option<string>)
    requires Enabled(s, Enter(c, opts, yieldable, parent, newErr)) && Accepted(opts)
    ensures var s', name := Step(s, Enter(c, opts, yieldable, parent, newErr)), Field(opts, "name").s;
      && c in s'.calls && s'.calls == s.calls[c := s'.calls[c]] && s'.calls[c].opts == opts
      && (!yieldable ==>
            s'.calls[c].pc == Direct && s'.calls[c].runs == 1 && s' == s.(calls := s'.calls))
      && (yieldable && name in s.semaphores ==>
            s'.calls[c].pc == Waiting(s.semaphores[name]) && s'.calls[c].runs == 0 && s' == s.(calls := s'.calls))
      && (yieldable && name !in s.semaphores && newErr.Some? ==>
            s'.calls[c].runs == 0 && s' == s.(calls := s'.calls)
            && ReplyOf(s'.calls[c]) == Some(Return([Nil, Str("failed to create " + name + " lock: " + newErr.value)])))
      && (yieldable && name !in s.semaphores && newErr.None? ==>
            s'.calls[c].pc == Waiting(|s.permits|) && s'.calls[c].runs == 0
            && s'.semaphores == s.semaphores[name := |s.permits|] && s'.permits == s.permits + [1])
  {
  }

  /** A call that waits or is inside `fn` was given accepted options. */
  lemma UnfinishedAccepted(s: State, c: CallId)
    requires Reachable(s) && c in s.calls && !s.calls[c].pc.Done?
    ensures Accepted(s.calls[c].opts) && Check(s.calls[c].opts).Config?
    ensures NameOf(s.calls[c]) == Field(s.calls[c].opts, "name").s
  {
    ReachableInv(s);
    assert RefersToTable(s, s.calls[c]);
    var es :| Legal(Init(), es) && After(Init(), es) == s;
    RunsKeepExits(Init(), es);
  }

  /** What a call is, once its wait has timed out, by the `on_timeout` option. */
  ghost predicate TimedOutAs(call: Call) {
    call.opts.Table? && Field(call.opts, "name").Str? &&
    var mode := Field(call.opts, "on_timeout");
    && (mode == Str("run_unlocked") ==>
          call.runs == 1 && ((call.pc.Running? && !call.pc.locked) || (call.pc.Done? && call.pc.exit.Ran?)))
    && (mode == Str("return_true") ==> call.runs == 0 && ReplyOf(call) == Some(Return([Bool(true)])))
    && (mode != Str("run_unlocked") && mode != Str("return_true") ==>
          NilOrFalse(mode) && call.runs == 0
          && ReplyOf(call) == Some(Return([Nil, Str("timeout acquiring " + Field(call.opts, "name").s + " lock")])))
  }

  /**
    When a wait times out: with "run_unlocked" the call is inside `fn`, unlocked; with "return_true"
    it answers true without running `fn`; without the option it answers nil and the timeout.
  */
  lemma TimeoutByMode(s: State, c: CallId)
    requires Reachable(s) && Enabled(s, Timeout(c))
    ensures var s' := Step(s, Timeout(c));
      && c in s'.calls && s' == s.(calls := s.calls[c := s'.calls[c]]) && s'.calls[c].opts == s.calls[c].opts
      && TimedOutAs(s'.calls[c]) && (s'.calls[c].pc.Running? ==> s'.calls[c].pc.sem == s.calls[c].pc.sem)
      && (Field(s.calls[c].opts, "on_timeout") == Str("run_unlocked") ==> s'.calls[c].pc.Running?)
  {
    UnfinishedAccepted(s, c);
    ReachableInv(s);
    assert RunsExact(s.calls[c]);
  }

  lemma {:induction false} TimedOutStays(s: State, es: seq<Event>, c: CallId)
    requires Legal(s, es) && c in s.calls && TimedOutAs(s.calls[c]) && !s.calls[c].pc.Waiting?
    ensures c in After(s, es).calls && TimedOutAs(After(s, es).calls[c])
    ensures After(s, es).calls[c].opts == s.calls[c].opts
    decreases |es|
  {
    if es != [] {
      StepChangesOneCall(s, es[0]);
      TimedOutStays(Step(s, es[0]), es[1..], c);
    }
  }

  lemma {:induction false} SplitRun(s: State, es: seq<Event>, i: nat)
    requires Legal(s, es) && i < |es|
    ensures Legal(s, es[..i]) && Enabled(After(s, es[..i]), es[i])
    ensures Legal(Step(After(s, es[..i]), es[i]), es[i + 1..])
    ensures After(s, es) == After(Step(After(s, es[..i]), es[i]), es[i + 1..])
    decreases |es|
  {
    if i == 0 {
      assert es[..0] == [];
    } else {
      SplitRun(Step(s, es[0]), es[1..], i - 1);
      assert es[..i][1..] == es[1..][..i - 1] && es[1..][i..] == es[i + 1..];
    }
  }

  /** Carried to runs: whatever follows, a call that timed out stays what its option made of it. */
  lemma TimeoutInRun(es: seq<Event>, i: nat, c: CallId)
    requires Legal(Init(), es) && i < |es| && es[i] == Timeout(c)
    ensures c in After(Init(), es).calls && TimedOutAs(After(Init(), es).calls[c])
  {
    SplitRun(Init(), es, i);
    var s := After(Init(), es[..i]);
    TimeoutByMode(s, c);
    TimedOutStays(Step(s, es[i]), es[i + 1..], c);
  }

  /** A wait that fails otherwise ends the call with the error; `fn` does not run. */
  lemma WaitErrorAnswer(s: State, c: CallId, err: string)
    requires Reachable(s) && Enabled(s, WaitError(c, err))
    ensures Accepted(s.calls[c].opts)
    ensures var s', name := Step(s, WaitError(c, err)), Field(s.calls[c].opts, "name").s;
      && c in s'.calls && s' == s.(calls := s.calls[c := s'.calls[c]]) && s'.calls[c].runs == 0
      && ReplyOf(s'.calls[c]) == Some(Return([Nil, Str("error attempting to acquire " + name + " lock: " + err)]))
  {
    UnfinishedAccepted(s, c);
    ReachableInv(s);
    assert RunsExact(s.calls[c]);
  }

  /**
    The answer after `fn`: its first two values, or nil and what it raised; in a phase that cannot
    yield, exactly what `fn` did.
  */
  lemma FinishAnswer(s: State, c: CallId, r: FnResult)
    requires Enabled(s, Finish(c, r))
    ensures c in Step(s, Finish(c, r)).calls
    ensures ReplyOf(Step(s, Finish(c, r)).calls[c]) == Some(
      match r
      case Values(vs) =>
        if s.calls[c].pc.Direct? then Return(vs)
        else Return([if |vs| > 0 then vs[0] else Nil, if |vs| > 1 then vs[1] else Nil])
      case Raise(e) => if s.calls[c].pc.Direct? then Error(e) else Return([Nil, e]))
  {
  }

  // ----- Progress -----

  ghost function Unfinished(s: State): set<CallId> {
    set c | c in s.calls && !s.calls[c].pc.Done?
  }

  ghost function StillWaiting(s: State): set<CallId> {
    set c | c in s.calls && s.calls[c].pc.Waiting?
  }

  /** Steps the calls already made can still take. */
  ghost function StepsLeft(s: State): nat {
    |Unfinished(s)| + |StillWaiting(s)|
  }

  lemma StepUsesUp(s: State, e: Event)
    requires Enabled(s, e) && !e.Enter?
    ensures StepsLeft(Step(s, e)) < StepsLeft(s)
  {
    StepChangesOneCall(s, e);
    var s' := Step(s, e);
    assert StillWaiting(s') == StillWaiting(s) - {e.c};
    assert e.c in Unfinished(s);
    if s'.calls[e.c].pc.Done? {
      assert Unfinished(s') == Unfinished(s) - {e.c};
    } else {
      assert e.c in StillWaiting(s);
      assert Unfinished(s') == Unfinished(s);
    }
  }

  /** Without new calls, every run is shorter than the steps left. */
  lemma {:induction false} DrainIsBounded(s: State, es: seq<Event>)
    requires Legal(s, es) && forall i | 0 <= i < |es| :: !es[i].Enter?
    ensures |es| + StepsLeft(After(s, es)) <= StepsLeft(s)
    decreases |es|
  {
    if es != [] {
      StepUsesUp(s, es[0]);
      DrainIsBounded(Step(s, es[0]), es[1..]);
    }
  }

  function NameOf(call: Call): string {
    var cfg := Check(call.opts);
    if cfg.Config? then cfg.name else ""
  }

  ghost function RankOf(s: State, c: CallId, rank: string -> int): int
    requires c in s.calls
  {
    rank(NameOf(s.calls[c]))
  }

  /** Nested calls take names in increasing rank. With no nesting this holds of every state. */
  ghost predicate NestedInOrder(s: State, rank: string -> int) {
    forall c, d | c in s.calls && d in s.calls && !s.calls[d].pc.Done? ::
      s.calls[d].parent == Some(c) ==> RankOf(s, c, rank) < RankOf(s, d, rank)
  }

  ghost predicate Stuck(s: State) {
    && Unfinished(s) != {}
    && (forall c :: !Enabled(s, Acquire(c)))
    && (forall c, r :: !Enabled(s, Finish(c, r)))
  }

  /** A waiting call can go on, or some call of the same name holds its lock. */
  lemma WaiterOrHolder(s: State, c: CallId) returns (h: CallId)
    requires Inv(s) && c in s.calls && s.calls[c].pc.Waiting? && !Enabled(s, Acquire(c))
    ensures h in s.calls && Inside(s.calls[h]) && NameOf(s.calls[h]) == NameOf(s.calls[c])
  {
    assert RefersToTable(s, s.calls[c]);
    assert Holders(s.calls, s.calls[c].pc.sem) != {};
    h :| h in Holders(s.calls, s.calls[c].pc.sem);
    assert RefersToTable(s, s.calls[h]);
  }

  // ----- Which nestings can block -----

  /** `r` says which names may be taken inside which. */
  ghost predicate NestedWithin(s: State, r: (string, string) -> bool) {
    forall c, d | c in s.calls && d in s.calls && !s.calls[d].pc.Done? ::
      s.calls[d].parent == Some(c) ==> r(NameOf(s.calls[c]), NameOf(s.calls[d]))
  }

  predicate Path(r: (string, string) -> bool, ns: seq<string>) {
    forall i | 0 < i < |ns| :: r(ns[i - 1], ns[i])
  }

  predicate Cycle(r: (string, string) -> bool, ns: seq<string>) {
    ns != [] && Path(r, ns) && r(ns[|ns| - 1], ns[0])
  }

  /** In a stuck state every unfinished call waits, itself or through a holder of its name, for a nested call. */
  lemma BlockedByChild(s: State, r: (string, string) -> bool, c: CallId) returns (d: CallId)
    requires Inv(s) && NestedWithin(s, r) && Stuck(s) && c in Unfinished(s)
    ensures d in Unfinished(s) && r(NameOf(s.calls[c]), NameOf(s.calls[d]))
  {
    assert !Enabled(s, Acquire(c));
    var h := c;
    if s.calls[c].pc.Waiting? {
      h := WaiterOrHolder(s, c);
    }
    assert RefersToTable(s, s.calls[h]);
    assert !Enabled(s, Finish(h, Values([])));
    d :| d in s.calls && s.calls[d].parent == Some(h) && !s.calls[d].pc.Done?;
  }

  lemma CloseCycle(r: (string, string) -> bool, ns: seq<string>, i: nat)
    requires i < |ns| && Path(r, ns) && r(ns[|ns| - 1], ns[i])
    ensures Cycle(r, ns[i..])
  {
    forall j | 0 < j < |ns[i..]| ensures r(ns[i..][j - 1], ns[i..][j]) {
      assert r(ns[i + j - 1], ns[i + j]);
    }
  }

  lemma LongerPath(r: (string, string) -> bool, ns: seq<string>, m: string)
    requires ns != [] && Path(r, ns) && r(ns[|ns| - 1], m)
    ensures Path(r, ns + [m])
  {
    forall j | 0 < j < |ns + [m]| ensures r((ns + [m])[j - 1], (ns + [m])[j]) {
      assert j < |ns| ==> r(ns[j - 1], ns[j]);
    }
  }

  ghost predicate HasNext(r: (string, string) -> bool, names: set<string>, n: string) {
    exists m :: m in names && r(n, m)
  }

  /** Walking on among finitely many names, `left` of them not yet met, closes a cycle. */
  lemma {:induction false} FindCycle(r: (string, string) -> bool, names: set<string>, ns: seq<string>,
                                     left: set<string>)
      returns (cycle: seq<string>)
    requires ns != [] && Path(r, ns) && ns[|ns| - 1] in names && forall n | n in names :: n in ns || n in left
    requires forall n | n in names :: HasNext(r, names, n)
    ensures Cycle(r, cycle)
    decreases left
  {
    assert HasNext(r, names, ns[|ns| - 1]);
    var m :| m in names && r(ns[|ns| - 1], m);
    if m in ns {
      var i :| 0 <= i < |ns| && ns[i] == m;
      CloseCycle(r, ns, i);
      cycle := ns[i..];
    } else {
      LongerPath(r, ns, m);
      cycle := FindCycle(r, names, ns + [m], left - {m});
    }
  }

  lemma StuckHasCycle(s: State, r: (string, string) -> bool) returns (cycle: seq<string>)
    requires Reachable(s) && NestedWithin(s, r) && Stuck(s)
    ensures Cycle(r, cycle)
  {
    ReachableInv(s);
    var names := set c | c in Unfinished(s) :: NameOf(s.calls[c]);
    forall n | n in names ensures HasNext(r, names, n) {
      var c :| c in Unfinished(s) && NameOf(s.calls[c]) == n;
      var d := BlockedByChild(s, r, c);
      assert NameOf(s.calls[d]) in names;
    }
    var c :| c in Unfinished(s);
    assert NameOf(s.calls[c]) in names;
    cycle := FindCycle(r, names, [NameOf(s.calls[c])], names);
  }

  predicate Distinct(ns: seq<string>) {
    forall i, j | 0 <= i < j < |ns| :: ns[i] != ns[j]
  }

  lemma SimpleCycle(r: (string, string) -> bool, ns: seq<string>) returns (simple: seq<string>)
    requires Cycle(r, ns)
    ensures Cycle(r, simple) && Distinct(simple)
    decreases |ns|
  {
    simple := ns;
    if i, j :| 0 <= i < j < |ns| && ns[i] == ns[j] {
      assert ns[i..j][|ns[i..j]| - 1] == ns[j - 1] && ns[i..j][0] == ns[i];
      assert Path(r, ns[i..j]) && r(ns[j - 1], ns[j]);
      simple := SimpleCycle(r, ns[i..j]);
    }
  }

  lemma {:induction false} AppendEvent(s: State, es: seq<Event>, e: Event)
    requires Legal(s, es) && Enabled(After(s, es), e)
    ensures Legal(s, es + [e]) && After(s, es + [e]) == Step(After(s, es), e)
    decreases |es|
  {
    if es == [] {
      assert ([] + [e])[1..] == [];
    } else {
      AppendEvent(Step(s, es[0]), es[1..], e);
      assert (es + [e])[1..] == es[1..] + [e];
    }
  }

  lemma StepReachable(s: State, e: Event)
    requires Reachable(s) && Enabled(s, e)
    ensures Reachable(Step(s, e))
  {
    var es :| Legal(Init(), es) && After(Init(), es) == s;
    AppendEvent(Init(), es, e);
  }

  function Named(name: string): Lua {
    Table(map["name" := Str(name)])
  }

  lemma NamedIsValid(name: string)
    ensures Check(Named(name)) == Config(name, 60.0, GiveUp)
  {
  }

  /** Call `i` holds the `i`-th name, for each of the first `k`. */
  ghost predicate Holding(s: State, ns: seq<string>, k: nat)
    requires k <= |ns|
  {
    && |s.permits| == k && (forall i | 0 <= i < k :: s.permits[i] == 0)
    && (forall n | n in s.semaphores :: n in ns[..k])
    && (forall i: nat | i < k :: ns[i] in s.semaphores && s.semaphores[ns[i]] == i)
    && (forall c: CallId | c < k :: c in s.calls && s.calls[c] == Call(Named(ns[c]), None, Running(c, true), 1))
  }

  /** A new call takes a new name and gets inside. */
  function Held(s: State, c: CallId, name: string): State {
    State(s.semaphores[name := |s.permits|], s.permits + [0],
          s.calls[c := Call(Named(name), None, Running(|s.permits|, true), 1)])
  }

  lemma TakeNew(s: State, c: CallId, name: string)
    requires Reachable(s) && c !in s.calls && name !in s.semaphores
    ensures Reachable(Held(s, c, name))
  {
    NamedIsValid(name);
    var enter, n := Enter(c, Named(name), true, None, None), |s.permits|;
    StepReachable(s, enter);
    var s1 := Step(s, enter);
    var waiting := Call(Named(name), None, Waiting(n), 0);
    assert s1 == State(s.semaphores[name := n], s.permits + [1], s.calls[c := waiting]);
    StepReachable(s1, Acquire(c));
    assert (s.permits + [1])[n := 0] == s.permits + [0];
    assert s1.calls[c := waiting.(pc := Running(n, true), runs := 1)] == Held(s, c, name).calls;
    assert Step(s1, Acquire(c)) == Held(s, c, name);
  }

  /** ... and these are all the calls there are. */
  ghost predicate HoldingOnly(s: State, ns: seq<string>, k: nat)
    requires k <= |ns|
  {
    Holding(s, ns, k) && forall c: CallId :: c in s.calls ==> c < k
  }

  lemma {:induction false} HoldAll(ns: seq<string>, k: nat) returns (s: State)
    requires Distinct(ns) && k <= |ns|
    ensures Reachable(s) && HoldingOnly(s, ns, k)
  {
    if k == 0 {
      s := Init();
      assert Legal(Init(), []) && After(Init(), []) == s;
    } else {
      var s0 := HoldAll(ns, k - 1);
      NextIsNew(s0, ns, k);
      TakeNew(s0, k - 1, ns[k - 1]);
      s := Held(s0, k - 1, ns[k - 1]);
      HoldingOneMore(s0, ns, k);
    }
  }

  lemma NextIsNew(s: State, ns: seq<string>, k: nat)
    requires Distinct(ns) && 0 < k <= |ns| && HoldingOnly(s, ns, k - 1)
    ensures ns[k - 1] !in s.semaphores && k - 1 !in s.calls
  {
    assert ns[k - 1] !in ns[..k - 1];
  }

  lemma HoldingOneMore(s: State, ns: seq<string>, k: nat)
    requires Distinct(ns) && 0 < k <= |ns| && HoldingOnly(s, ns, k - 1)
    ensures HoldingOnly(Held(s, k - 1, ns[k - 1]), ns, k)
  {
    assert ns[..k] == ns[..k - 1] + [ns[k - 1]];
    forall i: nat | i < k - 1 ensures ns[i] != ns[k - 1] {
    }
  }

  function Next(ns: seq<string>, i: nat): nat {
    if i + 1 == |ns| then 0 else i + 1
  }

  ghost predicate ChildWaits(s: State, ns: seq<string>, i: nat)
    requires i < |ns|
  {
    |ns| + i in s.calls
    && s.calls[|ns| + i] == Call(Named(ns[Next(ns, i)]), Some(i), Waiting(Next(ns, i)), 0)
  }

  /** Inside each of the first `k` calls, a call waits for the next name. */
  ghost predicate NextWaiting(s: State, ns: seq<string>, k: nat)
    requires k <= |ns|
  {
    && Holding(s, ns, |ns|)
    && (forall i: nat | i < k :: ChildWaits(s, ns, i))
    && (forall c: CallId :: c in s.calls ==> c < |ns| + k)
  }

  /** A call inside `p` that waits for a name already in the table. */
  function Blocked(s: State, c: CallId, name: string, p: CallId): State
    requires name in s.semaphores
  {
    s.(calls := s.calls[c := Call(Named(name), Some(p), Waiting(s.semaphores[name]), 0)])
  }

  lemma AwaitKnown(s: State, c: CallId, name: string, p: CallId)
    requires Reachable(s) && c !in s.calls && name in s.semaphores && p in s.calls && Inside(s.calls[p])
    ensures Reachable(Blocked(s, c, name, p))
  {
    NamedIsValid(name);
    var e := Enter(c, Named(name), true, Some(p), None);
    StepReachable(s, e);
    assert Step(s, e) == Blocked(s, c, name, p);
  }

  lemma {:induction false} WaitAll(ns: seq<string>, k: nat) returns (s: State)
    requires Distinct(ns) && k <= |ns|
    ensures Reachable(s) && NextWaiting(s, ns, k)
  {
    if k == 0 {
      s := HoldAll(ns, |ns|);
    } else {
      var i := k - 1;
      var s0 := WaitAll(ns, i);
      var name := ns[Next(ns, i)];
      ReadyToAwait(s0, ns, i);
      AwaitKnown(s0, |ns| + i, name, i);
      s := Blocked(s0, |ns| + i, name, i);
      WaitingOneMore(s0, ns, i);
    }
  }

  lemma ReadyToAwait(s: State, ns: seq<string>, i: nat)
    requires i < |ns| && NextWaiting(s, ns, i)
    ensures |ns| + i !in s.calls && i in s.calls && Inside(s.calls[i]) && ns[Next(ns, i)] in s.semaphores
  {
    assert s.calls[i] == Call(Named(ns[i]), None, Running(i, true), 1);
  }

  lemma WaitingOneMore(s: State, ns: seq<string>, i: nat)
    requires i < |ns| && NextWaiting(s, ns, i) && ns[Next(ns, i)] in s.semaphores
    ensures NextWaiting(Blocked(s, |ns| + i, ns[Next(ns, i)], i), ns, i + 1)
  {
    var s' := Blocked(s, |ns| + i, ns[Next(ns, i)], i);
    assert s.semaphores[ns[Next(ns, i)]] == Next(ns, i);
    assert ChildWaits(s', ns, i);
    forall j: nat | j < i ensures ChildWaits(s', ns, j) {
      assert ChildWaits(s, ns, j);
    }
    assert Holding(s', ns, |ns|);
  }

  lemma HolderOf(s: State, ns: seq<string>, i: nat)
    requires NextWaiting(s, ns, |ns|) && i < |ns|
    ensures i in s.calls && s.calls[i] == Call(Named(ns[i]), None, Running(i, true), 1) && NameOf(s.calls[i]) == ns[i]
  {
    NamedIsValid(ns[i]);
  }

  lemma ChildOf(s: State, ns: seq<string>, i: nat)
    requires NextWaiting(s, ns, |ns|) && i < |ns|
    ensures |ns| + i in s.calls && NameOf(s.calls[|ns| + i]) == ns[Next(ns, i)]
    ensures s.calls[|ns| + i] == Call(Named(ns[Next(ns, i)]), Some(i), Waiting(Next(ns, i)), 0)
  {
    assert ChildWaits(s, ns, i);
    NamedIsValid(ns[Next(ns, i)]);
  }

  lemma RunsNested(s: State, r: (string, string) -> bool, ns: seq<string>)
    requires NextWaiting(s, ns, |ns|) && Cycle(r, ns)
    ensures NestedWithin(s, r)
  {
    forall c, d | c in s.calls && d in s.calls && s.calls[d].parent == Some(c)
      ensures r(NameOf(s.calls[c]), NameOf(s.calls[d]))
    {
      if d < |ns| {
        HolderOf(s, ns, d);
      } else {
        ChildOf(s, ns, d - |ns|);
        HolderOf(s, ns, c);
        assert Next(ns, c) > 0 ==> r(ns[Next(ns, c) - 1], ns[Next(ns, c)]);
      }
    }
  }

  lemma AllBlocked(s: State, ns: seq<string>, c: CallId, result: FnResult)
    requires NextWaiting(s, ns, |ns|)
    ensures !Enabled(s, Acquire(c)) && !Enabled(s, Finish(c, result))
  {
    if c in s.calls {
      if c < |ns| {
        HolderOf(s, ns, c);
        ChildOf(s, ns, c);
      } else {
        ChildOf(s, ns, c - |ns|);
      }
    }
  }

  /** Every cycle can block: each name on it is held, and the next one is awaited inside. */
  lemma CycleBlocks(r: (string, string) -> bool, ns: seq<string>) returns (s: State)
    requires Cycle(r, ns)
    ensures Reachable(s) && NestedWithin(s, r) && Stuck(s)
  {
    var cycle := SimpleCycle(r, ns);
    s := WaitAll(cycle, |cycle|);
    RunsNested(s, r, cycle);
    ChildOf(s, cycle, 0);
    assert s.calls[|cycle| + 0].pc.Waiting?;
    assert |cycle| + 0 in Unfinished(s);
    forall c, result ensures !Enabled(s, Finish(c, result)) {
      AllBlocked(s, cycle, c, result);
    }
    forall c ensures !Enabled(s, Acquire(c)) {
      AllBlocked(s, cycle, c, Values([]));
    }
  }

  /**
    Exactly when nested calls can block for good with timeouts disabled: iff some names can be taken
    inside each other in a cycle, of any length.
  */
  lemma NeverStuckIffNoCycle(r: (string, string) -> bool)
    ensures (forall s :: Reachable(s) && NestedWithin(s, r) ==> !Stuck(s)) <==> !exists ns :: Cycle(r, ns)
  {
    if ns :| Cycle(r, ns) {
      var s := CycleBlocks(r, ns);
    } else {
      forall s | Reachable(s) && NestedWithin(s, r) ensures !Stuck(s) {
        if Stuck(s) {
          var cycle := StuckHasCycle(s, r);
        }
      }
    }
  }

  lemma {:induction false} RanksRise(rank: string -> int, ns: seq<string>)
    requires ns != [] && Path((a, b) => rank(a) < rank(b), ns)
    ensures rank(ns[0]) <= rank(ns[|ns| - 1])
  {
    if |ns| > 1 {
      var r := (a, b) => rank(a) < rank(b);
      assert r(ns[0], ns[1]);
      assert Path(r, ns[1..]) by {
        forall i | 0 < i < |ns[1..]| ensures r(ns[1..][i - 1], ns[1..][i]) {
          assert r(ns[i], ns[i + 1]);
        }
      }
      RanksRise(rank, ns[1..]);
    }
  }

  /** With timeouts disabled, a state is never stuck if nesting follows some order of names. */
  lemma NeverStuck(s: State, rank: string -> int)
    requires Reachable(s) && NestedInOrder(s, rank)
    ensures !Stuck(s)
  {
    if Stuck(s) {
      var r := (a, b) => rank(a) < rank(b);
      var cycle := StuckHasCycle(s, r);
      RanksRise(rank, cycle);
      assert false;
    }
  }

  /** The shortest cycle: taking a name again inside its own `fn` blocks for good, with any valid options. */
  lemma NestingTheSameNameIsStuck(opts: Lua) returns (es: seq<Event>)
    requires Check(opts).Config?
    ensures Legal(Init(), es) && Stuck(After(Init(), es))
  {
    var e0, e1, e2 := Enter(0, opts, true, None, None), Acquire(0), Enter(1, opts, true, Some(0), None);
    var s1 := Step(Init(), e0);
    var s2 := Step(s1, e1);
    var s3 := Step(s2, e2);
    es := [e0, e1, e2];
    assert es[1..] == [e1, e2] && es[1..][1..] == [e2] && es[1..][1..][1..] == [];
    assert Legal(s3, []) && Legal(s2, [e2]) && Legal(s1, [e1, e2]);
    assert After(s2, [e2]) == s3 && After(s1, [e1, e2]) == s3;
    assert 1 in Unfinished(s3) && s3.calls[1].parent == Some(0);
  }

  // ----- The code, updating the semaphore table and the permits in place -----

  class Mutexes {
    var semaphores: map<string, SemId>  // the module-level table
    var permits: seq<nat>               // the count inside each semaphore
    var calls: map<CallId, Call>

    ghost function Now(): State
      reads this
    {
      State(semaphores, permits, calls)
    }

    ghost predicate Valid()
      reads this
    {
      Inv(Now())
    }

    ghost predicate Ended(c: CallId, reply: Option<Reply>)
      reads this
    {
      c in calls && reply == ReplyOf(calls[c])
    }

    constructor ()
      ensures Valid() && Now() == Init()
    {
      semaphores, permits, calls := map[], [], map[];
    }

    /** From the call up to the wait, including the block that must not yield. */
    method Start(c: CallId, opts: Lua, yieldable: bool, parent: Option<CallId>, newErr: Option<string>)
        returns (reply: Option<Reply>)
      requires Valid() && Enabled(Now(), Enter(c, opts, yieldable, parent, newErr))
      modifies this
      ensures Valid() && Now() == Step(old(Now()), Enter(c, opts, yieldable, parent, newErr))
      ensures Ended(c, reply)
    {
      ghost var next := Step(Now(), Enter(c, opts, yieldable, parent, newErr));
      StepKeepsInv(Now(), Enter(c, opts, yieldable, parent, newErr));
      var cfg := Check(opts);
      if cfg.Invalid? {
        calls := calls[c := Call(opts, parent, Done(BadOpts(cfg.msg)), 0)];
        assert Now() == next;
        return Some(Error(Str(cfg.msg)));
      }
      if !yieldable {
        calls := calls[c := Call(opts, parent, Direct, 1)];
        assert Now() == next;
        return None;
      }
      var semaphore: SemId;
      if cfg.name in semaphores {
        semaphore := semaphores[cfg.name];
      } else {
        if newErr.Some? {
          calls := calls[c := Call(opts, parent, Done(NoSemaphore(newErr.value)), 0)];
          assert Now() == next;
          return Some(Return([Nil, Str("failed to create " + cfg.name + " lock: " + newErr.value)]));
        }
        semaphore := |permits|;
        permits := permits + [0];
        semaphores := semaphores[cfg.name := semaphore];
        permits := permits[semaphore := permits[semaphore] + 1];
      }
      calls := calls[c := Call(opts, parent, Waiting(semaphore), 0)];
      assert Now() == next;
      return None;
    }

    /** `wait` returned; `err` is None when it took a permit. */
    method Woken(c: CallId, err: Option<string>) returns (reply: Option<Reply>)
      requires Valid() && Enabled(Now(), WakeEvent(c, err))
      modifies this
      ensures Valid() && Now() == Step(old(Now()), WakeEvent(c, err))
      ensures Ended(c, reply)
    {
      StepKeepsInv(Now(), WakeEvent(c, err));
      assert RefersToTable(Now(), calls[c]);
      reply := GoOn(c, err);
    }

    /** What follows the wait: run `fn`, or return at once. */
    method GoOn(c: CallId, err: Option<string>) returns (reply: Option<Reply>)
      requires Enabled(Now(), WakeEvent(c, err)) && Check(calls[c].opts).Config?
      modifies this
      ensures Now() == Step(old(Now()), WakeEvent(c, err))
      ensures Ended(c, reply)
    {
      ghost var next := Step(Now(), WakeEvent(c, err));
      var call := calls[c];
      var cfg, semaphore := Check(call.opts), call.pc.sem;
      var lok := err.None?;
      if lok {
        permits := permits[semaphore := permits[semaphore] - 1];
      } else {
        if err.value != "timeout" {
          calls := calls[c := call.(pc := Done(WaitFailed(err.value)))];
          assert Now() == next;
          return Some(Return([Nil, Str("error attempting to acquire " + cfg.name + " lock: " + err.value)]));
        }
        if cfg.onTimeout == ReturnTrue {
          calls := calls[c := call.(pc := Done(TimedOutTrue))];
          assert Now() == next;
          return Some(Return([Bool(true)]));
        } else if cfg.onTimeout == GiveUp {
          calls := calls[c := call.(pc := Done(TimedOut))];
          assert Now() == next;
          return Some(Return([Nil, Str("timeout acquiring " + cfg.name + " lock")]));
        }
      }
      calls := calls[c := call.(pc := Running(semaphore, lok), runs := call.runs + 1)];
      assert Now() == next;
      return None;
    }

    /** `fn` ended; `r` is what it returned or raised. */
    method FnEnded(c: CallId, r: FnResult) returns (reply: Option<Reply>)
      requires Valid() && Enabled(Now(), Finish(c, r))
      modifies this
      ensures Valid() && Now() == Step(old(Now()), Finish(c, r))
      ensures Ended(c, reply)
    {
      ghost var next := Step(Now(), Finish(c, r));
      StepKeepsInv(Now(), Finish(c, r));
      var call := calls[c];
      if call.pc.Direct? {
        calls := calls[c := call.(pc := Done(RanDirectly(r)))];
        assert Now() == next;
        return Some(Unprotected(r));
      }
      if call.pc.locked {
        permits := permits[call.pc.sem := permits[call.pc.sem] + 1];
      }
      calls := calls[c := call.(pc := Done(Ran(r)))];
      assert Now() == next;
      return Some(Protected(r));
    }
  }
}
