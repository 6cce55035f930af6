/**
  `with_worker_mutex` of kong/concurrency.lua as a timed transition system: any number of calls in
  any number of workers share one lock dictionary and one clock.

  Contract of the lock primitive: locking adds the name's key if no live entry holds it, with an
  expiry `exptime` seconds ahead (0 means never), and otherwise keeps trying or gives up with an
  error, "timeout" among others; unlocking deletes the key, whoever added it. A worker may crash.
*/
module WorkerMutex {
  import opened LuaValues
  import opened Wrappers

  type CallId = nat

  datatype Config =
    | Invalid(msg: string)
    | Config(name: string, timeout: real, exptime: real)

  function Check(opts: Lua): Config {
    if !opts.Table? then Invalid("opts must be a table")
    else
      var name, timeout, exptime := Field(opts, "name"), Field(opts, "timeout"), Field(opts, "exptime");
      if !name.Str? then Invalid("opts.name is required and must be a string")
      else if Truthy(timeout) && !timeout.Number? then Invalid("opts.timeout must be a number")
      else if Truthy(exptime) && !exptime.Number? then Invalid("opts.exptime must be a number")
      else
        var t := if Truthy(timeout) then timeout.n else 60.0;
        Config(name.s, t, if Truthy(exptime) then exptime.n else t)
  }

  datatype Exit =
    | BadOpts(msg: string)
    | NoLock(err: string)
    | TimedOut
    | LockFailed(err: string)
    | Ran(r: FnResult)

  function Answer(exit: Exit): Reply {
    match exit
    case BadOpts(msg) => Error(Str(msg))
    case NoLock(err) => Return([Nil, Str("failed to create worker lock: " + err)])
    case TimedOut => Return([Nil, Str("timeout")])
    case LockFailed(err) => Return([Nil, Str("failed to acquire worker lock: " + err)])
    case Ran(r) => Protected(r)
  }

  datatype Pc =
    | Waiting
    | Inside(since: real)                 // inside `fn`, lock taken at `since`
    | Leaving(since: real, r: FnResult)   // `fn` is over, the lock not yet released
    | Crashed(since: real)                // the worker died between lock and unlock
    | Done(exit: Exit)

  datatype Call = Call(opts: Lua, cfg: Config, pc: Pc)

  /** `owner` is known to the model only; the dictionary stores no owner. */
  datatype Entry = Entry(owner: CallId, expires: Option<real>)

  datatype State = State(now: real, dict: map<string, Entry>, calls: map<CallId, Call>)

  datatype Event =
    | Tick(d: real)
    | Enter(c: CallId, opts: Lua, newErr: Option<string>)
    | Lock(c: CallId)
    | LockError(c: CallId, err: string)
    | FnEnds(c: CallId, r: FnResult)
    | Unlock(c: CallId)
    | Crash(c: CallId)

  function Init(): State {
    State(0.0, map[], map[])
  }

  predicate Holding(call: Call) {
    call.cfg.Config? && (call.pc.Inside? || call.pc.Leaving?)
  }

  predicate Live(s: State, name: string) {
    name in s.dict && (s.dict[name].expires.Some? ==> s.now < s.dict[name].expires.value)
  }

  predicate Pending(s: State, c: CallId) {
    c in s.calls && s.calls[c].cfg.Config? && s.calls[c].pc.Waiting?
  }

  predicate Enabled(s: State, e: Event) {
    match e
    case Tick(d) => 0.0 < d
    case Enter(c, _, _) => c !in s.calls
    case Lock(c) => Pending(s, c) && !Live(s, s.calls[c].cfg.name) && 0.0 <= s.calls[c].cfg.exptime
    case LockError(c, _) => Pending(s, c)
    case FnEnds(c, _) => c in s.calls && s.calls[c].cfg.Config? && s.calls[c].pc.Inside?
    case Unlock(c) => c in s.calls && s.calls[c].cfg.Config? && s.calls[c].pc.Leaving?
    case Crash(c) => c in s.calls && Holding(s.calls[c])
  }

  function Expiry(since: real, exptime: real): Option<real> {
    if exptime == 0.0 then None else Some(since + exptime)
  }

  function Step(s: State, e: Event): State
    requires Enabled(s, e)
  {
    match e
    case Tick(d) => s.(now := s.now + d)
    case Enter(c, opts, newErr) =>
      var cfg := Check(opts);
      s.(calls := s.calls[c := Call(opts, cfg,
        if cfg.Invalid? then Done(BadOpts(cfg.msg))
        else if newErr.Some? then Done(NoLock(newErr.value))
        else Waiting)])
    case Lock(c) =>
      var cfg := s.calls[c].cfg;
      State(s.now, s.dict[cfg.name := Entry(c, Expiry(s.now, cfg.exptime))],
            s.calls[c := s.calls[c].(pc := Inside(s.now))])
    case LockError(c, err) =>
      s.(calls := s.calls[c := s.calls[c].(pc := Done(if err == "timeout" then TimedOut else LockFailed(err)))])
    case FnEnds(c, r) => s.(calls := s.calls[c := s.calls[c].(pc := Leaving(s.calls[c].pc.since, r))])
    case Unlock(c) =>
      State(s.now, s.dict - {s.calls[c].cfg.name}, s.calls[c := s.calls[c].(pc := Done(Ran(s.calls[c].pc.r)))])
    case Crash(c) => s.(calls := s.calls[c := s.calls[c].(pc := Crashed(s.calls[c].pc.since))])
  }

  // ----- Runs -----

  ghost predicate Legal(s: State, es: seq<Event>)
    decreases |es|
  {
    es == [] || (Enabled(s, es[0]) && Legal(Step(s, es[0]), es[1..]))
  }

  ghost function After(s: State, es: seq<Event>): State
    requires Legal(s, es)
    decreases |es|
  {
    if es == [] then s else After(Step(s, es[0]), es[1..])
  }

  /** `p` holds of every state of the run. */
  ghost predicate Always(s: State, es: seq<Event>, p: State -> bool)
    requires Legal(s, es)
    decreases |es|
  {
    p(s) && (es != [] ==> Always(Step(s, es[0]), es[1..], p))
  }

  predicate Unexpired(s: State, call: Call)
    requires call.cfg.Config? && (call.pc.Inside? || call.pc.Leaving? || call.pc.Crashed?)
  {
    call.cfg.exptime == 0.0 || s.now < call.pc.since + call.cfg.exptime
  }

  /** Everyone between lock and unlock is still within its own `exptime`. */
  predicate InTime(s: State) {
    forall c | c in s.calls :: Holding(s.calls[c]) ==> Unexpired(s, s.calls[c])
  }

  ghost predicate Exclusive(s: State) {
    forall c, d | c in s.calls && d in s.calls ::
      Holding(s.calls[c]) && Holding(s.calls[d]) && s.calls[c].cfg.name == s.calls[d].cfg.name ==> c == d
  }

  // ----- What every run keeps -----

  /** A call that holds its lock, or crashed and has not expired, owns the entry of its name. */
  ghost predicate OwnsEntry(s: State, c: CallId)
    requires c in s.calls
  {
    var call := s.calls[c];
    Holding(call) || (call.cfg.Config? && call.pc.Crashed? && Unexpired(s, call)) ==>
      call.cfg.name in s.dict && s.dict[call.cfg.name] == Entry(c, Expiry(call.pc.since, call.cfg.exptime))
  }

  /** An entry belongs to a call of that name between lock and unlock, crashed or not. */
  ghost predicate EntryOwned(s: State, name: string)
    requires name in s.dict
  {
    var entry := s.dict[name];
    entry.owner in s.calls &&
      var call := s.calls[entry.owner];
      call.cfg.Config? && call.cfg.name == name && (call.pc.Inside? || call.pc.Leaving? || call.pc.Crashed?)
      && entry.expires == Expiry(call.pc.since, call.cfg.exptime)
  }

  ghost predicate NoStrayEntry(s: State) {
    forall name | name in s.dict :: EntryOwned(s, name)
  }

  ghost predicate Inv(s: State) {
    NoStrayEntry(s) && forall c | c in s.calls :: OwnsEntry(s, c)
  }

  lemma StepLeavesNoStrayEntry(s: State, e: Event)
    requires NoStrayEntry(s) && Enabled(s, e)
    ensures NoStrayEntry(Step(s, e))
  {
    forall name | name in Step(s, e).dict ensures EntryOwned(Step(s, e), name) {
      assert name in s.dict ==> EntryOwned(s, name);
    }
  }

  /** On every run, timely or not, `fn` raising or not, no entry outlives its owner's unlock. */
  lemma {:induction false} RunsLeaveNoStrayEntry(s: State, es: seq<Event>)
    requires NoStrayEntry(s) && Legal(s, es)
    ensures NoStrayEntry(After(s, es))
    decreases |es|
  {
    if es != [] {
      StepLeavesNoStrayEntry(s, es[0]);
      RunsLeaveNoStrayEntry(Step(s, es[0]), es[1..]);
    }
  }

  lemma StepKeepsOwner(s: State, e: Event, c: CallId)
    requires Inv(s) && InTime(s) && Enabled(s, e) && c in Step(s, e).calls
    ensures OwnsEntry(Step(s, e), c)
  {
    if c in s.calls {
      assert OwnsEntry(s, c);
      assert Holding(s.calls[c]) ==> Unexpired(s, s.calls[c]);
    }
    match e {
      case Lock(d) => assert c in s.calls && (c != d ==> OwnsEntry(s, c));
      case Unlock(d) => assert OwnsEntry(s, d);
      case _ =>
    }
  }

  lemma StepKeepsInv(s: State, e: Event)
    requires Inv(s) && InTime(s) && Enabled(s, e)
    ensures Inv(Step(s, e))
  {
    StepLeavesNoStrayEntry(s, e);
    forall c | c in Step(s, e).calls ensures OwnsEntry(Step(s, e), c) {
      StepKeepsOwner(s, e, c);
    }
  }

  lemma {:induction false} TimelyRunsKeepInv(s: State, es: seq<Event>)
    requires Inv(s) && Legal(s, es) && Always(s, es, InTime)
    ensures Inv(After(s, es)) && InTime(After(s, es))
    decreases |es|
  {
    if es != [] {
      StepKeepsInv(s, es[0]);
      TimelyRunsKeepInv(Step(s, es[0]), es[1..]);
    }
  }

  // ----- Main results -----

  /** If every call stays within its `exptime`, no two are between lock and unlock for one name. */
  lemma TimelyRunsAreExclusive(es: seq<Event>)
    requires Legal(Init(), es) && Always(Init(), es, InTime)
    ensures Exclusive(After(Init(), es))
  {
    TimelyRunsKeepInv(Init(), es);
    var s := After(Init(), es);
    forall c, d | c in s.calls && d in s.calls && Holding(s.calls[c]) && Holding(s.calls[d])
                  && s.calls[c].cfg.name == s.calls[d].cfg.name
      ensures c == d
    {
      assert OwnsEntry(s, c) && OwnsEntry(s, d);
    }
  }

  /** ... and each unlock deletes the caller's own entry. */
  lemma UnlockRemovesOwnEntry(es: seq<Event>, c: CallId)
    requires Legal(Init(), es) && Always(Init(), es, InTime)
    requires Enabled(After(Init(), es), Unlock(c))
    ensures var s := After(Init(), es); var name := s.calls[c].cfg.name;
      name in s.dict && s.dict[name].owner == c && name !in Step(s, Unlock(c)).dict
  {
    TimelyRunsKeepInv(Init(), es);
    assert OwnsEntry(After(Init(), es), c);
  }

  /** Some call took this lock and its entry has neither been released nor expired. */
  ghost predicate Occupied(s: State, name: string) {
    exists c :: c in s.calls && s.calls[c].cfg.Config? && s.calls[c].cfg.name == name
      && (s.calls[c].pc.Inside? || s.calls[c].pc.Leaving? || s.calls[c].pc.Crashed?)
      && Unexpired(s, s.calls[c])
  }

  /**
    In a timely run a waiting call can take its lock exactly when no unexpired call has it: not
    after a raise, not after an unlock, and after a crash only until the crashed call's expiry.
  */
  lemma LockableIffNotOccupied(es: seq<Event>, w: CallId)
    requires Legal(Init(), es) && Always(Init(), es, InTime)
    requires Pending(After(Init(), es), w) && 0.0 <= After(Init(), es).calls[w].cfg.exptime
    ensures var s := After(Init(), es);
      Enabled(s, Lock(w)) <==> !Occupied(s, s.calls[w].cfg.name)
  {
    TimelyRunsKeepInv(Init(), es);
    var s := After(Init(), es);
    var name := s.calls[w].cfg.name;
    if Occupied(s, name) {
      var c :| c in s.calls && s.calls[c].cfg.Config? && s.calls[c].cfg.name == name
        && (s.calls[c].pc.Inside? || s.calls[c].pc.Leaving? || s.calls[c].pc.Crashed?)
        && Unexpired(s, s.calls[c]);
      assert OwnsEntry(s, c);
    }
    if Live(s, name) {
      assert EntryOwned(s, name);
      assert Unexpired(s, s.calls[s.dict[name].owner]);
    }
  }

  // ----- From the options to the expiry -----

  predicate NilOrFalse(v: Lua) {
    v == Nil || v == Bool(false)
  }

  /** The options a call may be given. */
  predicate Accepted(opts: Lua) {
    && opts.Table? && Field(opts, "name").Str?
    && (Field(opts, "timeout").Number? || NilOrFalse(Field(opts, "timeout")))
    && (Field(opts, "exptime").Number? || NilOrFalse(Field(opts, "exptime")))
  }

  /** The seconds a lock is granted for: `exptime`, else `timeout`, else 60. */
  function Seconds(opts: Lua): real
    requires Accepted(opts)
  {
    if Field(opts, "exptime").Number? then Field(opts, "exptime").n
    else if Field(opts, "timeout").Number? then Field(opts, "timeout").n
    else 60.0
  }

  function ReplyOf(call: Call): Option<Reply> {
    if call.pc.Done? then Some(Answer(call.pc.exit)) else None
  }

  /** Rejected options raise, with the message of the first check that fails. */
  lemma RejectedOptionsRaise(s: State, c: CallId, opts: Lua, newErr: Option<string>)
    requires Enabled(s, Enter(c, opts, newErr)) && !Accepted(opts)
    ensures var s' := Step(s, Enter(c, opts, newErr));
      && c in s'.calls && s' == s.(calls := s.calls[c := s'.calls[c]])
      && ReplyOf(s'.calls[c]) == Some(Error(Str(
           if !opts.Table? then "opts must be a table"
           else if !Field(opts, "name").Str? then "opts.name is required and must be a string"
           else if !Field(opts, "timeout").Number? && !NilOrFalse(Field(opts, "timeout")) then
             "opts.timeout must be a number"
           else "opts.exptime must be a number")))
  {
  }

  /** Accepted options wait for the lock of the name they give, if the lock object can be created. */
  lemma AcceptedOptionsWait(s: State, c: CallId, opts: Lua, newErr: Option<string>)
    requires Enabled(s, Enter(c, opts, newErr)) && Accepted(opts)
    ensures var s' := Step(s, Enter(c, opts, newErr));
      && c in s'.calls && s' == s.(calls := s.calls[c := s'.calls[c]]) && s'.calls[c].opts == opts
      && (newErr.None? ==> Pending(s', c) && s'.calls[c].cfg.name == Field(opts, "name").s)
      && (newErr.Some? ==>
            ReplyOf(s'.calls[c]) == Some(Return([Nil, Str("failed to create worker lock: " + newErr.value)])))
  {
  }

  /** A call's settings are those of its options. */
  ghost predicate ByOptions(s: State) {
    forall c | c in s.calls ::
      s.calls[c].cfg == Check(s.calls[c].opts)
      && (!s.calls[c].pc.Done? ==> Accepted(s.calls[c].opts))
  }

  lemma StepKeepsOptions(s: State, e: Event)
    requires ByOptions(s) && Enabled(s, e)
    ensures ByOptions(Step(s, e))
    ensures forall c | c in s.calls :: c in Step(s, e).calls && Step(s, e).calls[c].opts == s.calls[c].opts
    ensures e.Enter? ==> e.c in Step(s, e).calls && Step(s, e).calls[e.c].opts == e.opts
  {
  }

  lemma {:induction false} RunsKeepOptions(s: State, es: seq<Event>)
    requires ByOptions(s) && Legal(s, es)
    ensures ByOptions(After(s, es))
    ensures forall c | c in s.calls :: c in After(s, es).calls && After(s, es).calls[c].opts == s.calls[c].opts
    decreases |es|
  {
    if es != [] {
      StepKeepsOptions(s, es[0]);
      RunsKeepOptions(Step(s, es[0]), es[1..]);
    }
  }

  lemma SettingsOf(opts: Lua)
    requires Accepted(opts)
    ensures Check(opts).Config? && Check(opts).name == Field(opts, "name").s && Check(opts).exptime == Seconds(opts)
  {
  }

  lemma {:induction false} SplitRun(s: State, es: seq<Event>, i: nat)
    requires Legal(s, es) && i < |es|
    ensures Legal(s, es[..i]) && Enabled(After(s, es[..i]), es[i])
    ensures Legal(Step(After(s, es[..i]), es[i]), es[i + 1..])
    ensures After(s, es) == After(Step(After(s, es[..i]), es[i]), es[i + 1..])
    decreases |es|
  {
    if i == 0 {
      assert es[..0] == [];
    } else {
      SplitRun(Step(s, es[0]), es[1..], i - 1);
      assert es[..i][1..] == es[1..][..i - 1] && es[1..][i..] == es[i + 1..];
    }
  }

  /** The options a call was entered with stay its options. */
  lemma EnteredOptions(es: seq<Event>, i: nat, c: CallId, opts: Lua, newErr: Option<string>)
    requires Legal(Init(), es) && i < |es| && es[i] == Enter(c, opts, newErr)
    ensures ByOptions(After(Init(), es)) && c in After(Init(), es).calls && After(Init(), es).calls[c].opts == opts
  {
    SplitRun(Init(), es, i);
    RunsKeepOptions(Init(), es[..i]);
    StepKeepsOptions(After(Init(), es[..i]), es[i]);
    RunsKeepOptions(Step(After(Init(), es[..i]), es[i]), es[i + 1..]);
  }

  /**
    Locking now puts an entry under the name in `opts` that expires after the seconds in `opts`, and
    never exactly when these are 0.
  */
  predicate LocksBy(s: State, c: CallId, opts: Lua) {
    Accepted(opts) && 0.0 <= Seconds(opts) && Enabled(s, Lock(c)) &&
    var s', name := Step(s, Lock(c)), Field(opts, "name").s;
    && s'.dict == s.dict[name := Entry(c, if Seconds(opts) == 0.0 then None else Some(s.now + Seconds(opts)))]
    && s'.now == s.now && c in s'.calls && s'.calls[c].pc == Inside(s.now)
  }

  lemma LockByOptions(s: State, c: CallId)
    requires ByOptions(s) && Enabled(s, Lock(c))
    ensures LocksBy(s, c, s.calls[c].opts)
  {
    SettingsOf(s.calls[c].opts);
  }

  /** Over any run: a call that was entered with `opts` and then locks does so by these. */
  lemma LockExpiresByOptions(es: seq<Event>, i: nat, c: CallId, opts: Lua, newErr: Option<string>)
    requires Legal(Init(), es) && i < |es| && es[i] == Enter(c, opts, newErr) && Enabled(After(Init(), es), Lock(c))
    ensures LocksBy(After(Init(), es), c, opts)
  {
    EnteredOptions(es, i, c, opts, newErr);
    LockByOptions(After(Init(), es), c);
  }

  /**
    In a timely run a call that crashed keeps others out exactly until its seconds are over, and for
    ever exactly when they are 0.
  */
  lemma CrashBlocksUntil(es: seq<Event>, c: CallId, w: CallId)
    requires Legal(Init(), es) && Always(Init(), es, InTime)
    requires var s := After(Init(), es);
      && Pending(s, w) && 0.0 <= s.calls[w].cfg.exptime
      && c in s.calls && s.calls[c].cfg.Config? && s.calls[c].pc.Crashed? && s.calls[c].cfg.name == s.calls[w].cfg.name
      && forall d | d in s.calls && d != c && s.calls[d].cfg.Config? && s.calls[d].cfg.name == s.calls[w].cfg.name
                    && (s.calls[d].pc.Inside? || s.calls[d].pc.Leaving? || s.calls[d].pc.Crashed?) ::
           !Unexpired(s, s.calls[d])
    ensures Accepted(After(Init(), es).calls[c].opts)
    ensures var s := After(Init(), es); var seconds := Seconds(s.calls[c].opts);
      Enabled(s, Lock(w)) <==> seconds != 0.0 && s.calls[c].pc.since + seconds <= s.now
  {
    RunsKeepOptions(Init(), es);
    var s := After(Init(), es);
    SettingsOf(s.calls[c].opts);
    LockableIffNotOccupied(es, w);
  }

  /** Giving up on the lock answers nil and "timeout", or nil and the error. */
  lemma LockErrorAnswer(s: State, c: CallId, err: string)
    requires Enabled(s, LockError(c, err))
    ensures var s' := Step(s, LockError(c, err));
      && c in s'.calls && s' == s.(calls := s.calls[c := s'.calls[c]])
      && ReplyOf(s'.calls[c]) == Some(Return([Nil, Str(
           if err == "timeout" then "timeout" else "failed to acquire worker lock: " + err)]))
  {
  }

  /** The answer after `fn`: its first two values, or nil and what it raised. */
  lemma FnAnswer(s: State, c: CallId, r: FnResult)
    requires Enabled(s, FnEnds(c, r))
    ensures Enabled(Step(s, FnEnds(c, r)), Unlock(c))
    ensures var s' := Step(Step(s, FnEnds(c, r)), Unlock(c));
      c in s'.calls && ReplyOf(s'.calls[c]) == Some(
        match r
        case Values(vs) => Return([if |vs| > 0 then vs[0] else Nil, if |vs| > 1 then vs[1] else Nil])
        case Raise(e) => Return([Nil, e]))
  {
  }

  /** Every holder asked for expiry `e` and has held its lock for at most `d`. */
  predicate HeldAtMost(s: State, e: real, d: real) {
    forall c | c in s.calls && Holding(s.calls[c]) ::
      s.calls[c].cfg.exptime == e && s.now - s.calls[c].pc.since <= d
  }

  function Within(e: real, d: real): State -> bool {
    s => HeldAtMost(s, e, d)
  }

  lemma {:induction false} WeakerAlways(s: State, es: seq<Event>, e: real, d: real)
    requires Legal(s, es) && Always(s, es, Within(e, d)) && (e == 0.0 || d < e)
    ensures Always(s, es, InTime)
    decreases |es|
  {
    assert HeldAtMost(s, e, d);
    if es != [] {
      WeakerAlways(Step(s, es[0]), es[1..], e, d);
    }
  }

  function Options(name: string, exptime: real): Lua {
    Table(map["name" := Str(name), "exptime" := Number(exptime)])
  }

  /** A takes the lock, holds it for `e`, and B takes it too. */
  function OverrunRun(e: real): seq<Event> {
    [Enter(0, Options("x", e), None), Lock(0), Tick(e), Enter(1, Options("x", e), None), Lock(1)]
  }

  lemma OverrunBreaksExclusion(e: real, d: real)
    requires 0.0 < e <= d
    ensures Legal(Init(), OverrunRun(e)) && Always(Init(), OverrunRun(e), Within(e, d))
    ensures !Exclusive(After(Init(), OverrunRun(e)))
    ensures var s := After(Init(), OverrunRun(e));
      0 in s.calls && s.calls[0].cfg.Config? && s.calls[0].cfg.name == "x" && s.calls[0].pc.Inside?
      && "x" in s.dict && s.dict["x"].owner == 1
  {
    var es := OverrunRun(e);
    var p := Within(e, d);
    var s1 := Step(Init(), es[0]);
    var s2 := Step(s1, es[1]);
    var s3 := Step(s2, es[2]);
    var s4 := Step(s3, es[3]);
    var s5 := Step(s4, es[4]);
    assert Legal(s5, []) && Always(s5, [], p) && After(s5, []) == s5;
    StepBack(s4, es[4], [], p);
    StepBack(s3, es[3], [es[4]], p);
    StepBack(s2, es[2], [es[3], es[4]], p);
    StepBack(s1, es[1], [es[2], es[3], es[4]], p);
    StepBack(Init(), es[0], [es[1], es[2], es[3], es[4]], p);
    assert es == [es[0]] + [es[1], es[2], es[3], es[4]];
    assert Holding(s5.calls[0]) && Holding(s5.calls[1]);
  }

  lemma StepBack(s: State, e: Event, es: seq<Event>, p: State -> bool)
    requires Enabled(s, e) && Legal(Step(s, e), es) && Always(Step(s, e), es, p) && p(s)
    ensures Legal(s, [e] + es) && Always(s, [e] + es, p)
    ensures After(s, [e] + es) == After(Step(s, e), es)
  {
    assert ([e] + es)[1..] == es;
  }

  /**
    The bound is sharp. Calls that ask for expiry `e` and keep their lock for at most `d` exclude
    each other on every run if and only if `e` is 0 (never) or `d` is below `e`.
  */
  lemma ExclusiveIffWithinExpiry(e: real, d: real)
    requires 0.0 <= e && 0.0 <= d
    ensures (forall es :: Legal(Init(), es) && Always(Init(), es, Within(e, d))
                          ==> Exclusive(After(Init(), es)))
            <==> (e == 0.0 || d < e)
  {
    if e == 0.0 || d < e {
      forall es | Legal(Init(), es) && Always(Init(), es, Within(e, d))
        ensures Exclusive(After(Init(), es))
      {
        WeakerAlways(Init(), es, e, d);
        TimelyRunsAreExclusive(es);
      }
    } else {
      OverrunBreaksExclusion(e, d);
    }
  }

  lemma {:induction false} OneMore(s: State, es: seq<Event>, e: Event, p: State -> bool)
    requires Legal(s, es) && Always(s, es, p) && Enabled(After(s, es), e)
    ensures p(After(s, es))
    ensures p(Step(After(s, es), e)) ==> Legal(s, es + [e]) && Always(s, es + [e], p)
    ensures p(Step(After(s, es), e)) ==> After(s, es + [e]) == Step(After(s, es), e)
    decreases |es|
  {
    if es == [] {
      assert ([] + [e])[1..] == [] && ([] + [e])[0] == e;
    } else {
      OneMore(Step(s, es[0]), es[1..], e, p);
      assert (es + [e])[1..] == es[1..] + [e] && (es + [e])[0] == es[0];
    }
  }

  /** The entry of the caller's name is the caller's own. */
  predicate OwnEntry(s: State, c: CallId) {
    c in s.calls && s.calls[c].cfg.Config? && s.calls[c].cfg.name in s.dict && s.dict[s.calls[c].cfg.name].owner == c
  }

  ghost predicate UnlocksOwn(es: seq<Event>, p: State -> bool) {
    Legal(Init(), es) && Always(Init(), es, p) ==>
      forall c :: Enabled(After(Init(), es), Unlock(c)) ==> OwnEntry(After(Init(), es), c)
  }

  lemma OverrunUnlocksOther(e: real, d: real)
    requires 0.0 < e <= d
    ensures !UnlocksOwn(OverrunRun(e) + [FnEnds(0, Values([]))], Within(e, d))
  {
    OverrunBreaksExclusion(e, d);
    var es, end := OverrunRun(e), FnEnds(0, Values([]));
    OneMore(Init(), es, end, Within(e, d));
    var s := Step(After(Init(), es), end);
    assert HeldAtMost(After(Init(), es), e, d);
    assert HeldAtMost(s, e, d);
    assert Enabled(s, Unlock(0)) && !OwnEntry(s, 0);
  }

  /** The same bound decides whether every unlock deletes the caller's own entry. */
  lemma UnlocksOwnIffWithinExpiry(e: real, d: real)
    requires 0.0 <= e && 0.0 <= d
    ensures (forall es :: UnlocksOwn(es, Within(e, d))) <==> (e == 0.0 || d < e)
  {
    if e == 0.0 || d < e {
      forall es ensures UnlocksOwn(es, Within(e, d)) {
        if Legal(Init(), es) && Always(Init(), es, Within(e, d)) {
          WeakerAlways(Init(), es, e, d);
          forall c | Enabled(After(Init(), es), Unlock(c)) ensures OwnEntry(After(Init(), es), c) {
            UnlockRemovesOwnEntry(es, c);
          }
        }
      }
    } else {
      OverrunUnlocksOther(e, d);
    }
  }

  predicate OthersInTime(s: State) {
    forall c | c in s.calls && c != 0 :: Holding(s.calls[c]) ==> Unexpired(s, s.calls[c])
  }

  /** A holds "x" until time 1, which it is now; B and C wait. */
  function OverdueState(): State {
    var o, cfg := Options("x", 1.0), Config("x", 60.0, 1.0);
    State(1.0, map["x" := Entry(0, Some(1.0))],
          map[0 := Call(o, cfg, Inside(0.0)), 1 := Call(o, cfg, Waiting), 2 := Call(o, cfg, Waiting)])
  }

  function ToOverdue(): seq<Event> {
    var o := Options("x", 1.0);
    [Enter(0, o, None), Enter(1, o, None), Enter(2, o, None), Lock(0), Tick(1.0)]
  }

  /** B locks, A ends and unlocks, C locks. */
  function FromOverdue(): seq<Event> {
    [Lock(1), FnEnds(0, Values([])), Unlock(0), Lock(2)]
  }

  lemma ReachesOverdue(es: seq<Event>)
    requires Legal(OverdueState(), es) && Always(OverdueState(), es, OthersInTime)
    ensures Legal(Init(), ToOverdue() + es) && Always(Init(), ToOverdue() + es, OthersInTime)
    ensures After(Init(), ToOverdue() + es) == After(OverdueState(), es)
  {
    var es0 := ToOverdue();
    var s1 := Step(Init(), es0[0]);
    var s2 := Step(s1, es0[1]);
    var s3 := Step(s2, es0[2]);
    var s4 := Step(s3, es0[3]);
    assert Step(s4, es0[4]) == OverdueState();
    StepBack(s4, es0[4], es, OthersInTime);
    var es4 := [es0[4]] + es;
    StepBack(s3, es0[3], es4, OthersInTime);
    var es3 := [es0[3]] + es4;
    StepBack(s2, es0[2], es3, OthersInTime);
    var es2 := [es0[2]] + es3;
    StepBack(s1, es0[1], es2, OthersInTime);
    var es1 := [es0[1]] + es2;
    StepBack(Init(), es0[0], es1, OthersInTime);
    assert es0 + es == [es0[0]] + es1;
  }

  lemma OverdueBreaks()
    ensures Legal(OverdueState(), FromOverdue()) && Always(OverdueState(), FromOverdue(), OthersInTime)
    ensures var s := After(OverdueState(), FromOverdue());
      1 in s.calls && 2 in s.calls && Holding(s.calls[1]) && Holding(s.calls[2])
      && s.calls[1].cfg.name == s.calls[2].cfg.name == "x"
      && "x" in s.dict && s.dict["x"].owner == 2
  {
    var es := FromOverdue();
    var s1 := Step(OverdueState(), es[0]);
    var s2 := Step(s1, es[1]);
    var s3 := Step(s2, es[2]);
    var s4 := Step(s3, es[3]);
    assert Legal(s4, []) && Always(s4, [], OthersInTime) && After(s4, []) == s4;
    StepBack(s3, es[3], [], OthersInTime);
    StepBack(s2, es[2], [es[3]], OthersInTime);
    StepBack(s1, es[1], [es[2], es[3]], OthersInTime);
    StepBack(OverdueState(), es[0], [es[1], es[2], es[3]], OthersInTime);
    assert es == [es[0]] + [es[1], es[2], es[3]];
  }

  /**
    One overrunning call harms others: A overruns, B takes the lock, A's unlock deletes B's entry,
    and C gets in beside B although B and C are both in time.
  */
  lemma OverrunHarmsPunctualCalls() returns (es: seq<Event>)
    ensures Legal(Init(), es) && Always(Init(), es, OthersInTime)
    ensures var s := After(Init(), es);
      !Exclusive(s) && 1 in s.calls && 2 in s.calls && Holding(s.calls[1]) && Holding(s.calls[2])
      && s.calls[1].cfg.name == s.calls[2].cfg.name == "x"
      && "x" in s.dict && s.dict["x"].owner == 2
  {
    OverdueBreaks();
    ReachesOverdue(FromOverdue());
    es := ToOverdue() + FromOverdue();
  }

  // ----- The code, on the shared dictionary and the calls' local state -----

  class Workers {
    var now: real
    var dict: map<string, Entry>
    var calls: map<CallId, Call>

    ghost function Now(): State
      reads this
    {
      State(now, dict, calls)
    }

    ghost predicate Ended(c: CallId, reply: Option<Reply>)
      reads this
    {
      c in calls && reply == ReplyOf(calls[c])
    }

    constructor ()
      ensures Now() == Init()
    {
      now, dict, calls := 0.0, map[], map[];
    }

    /** Check the options and create the lock object; `newErr` is the primitive's error, if any. */
    method Start(c: CallId, opts: Lua, newErr: Option<string>) returns (reply: Option<Reply>)
      requires Enabled(Now(), Enter(c, opts, newErr))
      modifies this
      ensures Now() == Step(old(Now()), Enter(c, opts, newErr)) && Ended(c, reply)
    {
      var cfg := Check(opts);
      if cfg.Invalid? {
        calls := calls[c := Call(opts, cfg, Done(BadOpts(cfg.msg)))];
        return Some(Error(Str(cfg.msg)));
      }
      if newErr.Some? {
        calls := calls[c := Call(opts, cfg, Done(NoLock(newErr.value)))];
        return Some(Return([Nil, Str("failed to create worker lock: " + newErr.value)]));
      }
      calls := calls[c := Call(opts, cfg, Waiting)];
      return None;
    }

    /** `rlock:lock` returned; `err` is None when it added the key. */
    method LockReturned(c: CallId, err: Option<string>) returns (reply: Option<Reply>)
      requires Enabled(Now(), if err.None? then Lock(c) else LockError(c, err.value))
      modifies this
      ensures Now() == Step(old(Now()), if err.None? then Lock(c) else LockError(c, err.value))
      ensures Ended(c, reply)
    {
      var call := calls[c];
      if err.Some? {
        if err.value == "timeout" {
          calls := calls[c := call.(pc := Done(TimedOut))];
          return Some(Return([Nil, Str(err.value)]));
        }
        calls := calls[c := call.(pc := Done(LockFailed(err.value)))];
        return Some(Return([Nil, Str("failed to acquire worker lock: " + err.value)]));
      }
      dict := dict[call.cfg.name := Entry(c, Expiry(now, call.cfg.exptime))];
      calls := calls[c := call.(pc := Inside(now))];
      return None;
    }

    method FnEnded(c: CallId, r: FnResult)
      requires Enabled(Now(), FnEnds(c, r))
      modifies this`calls
      ensures Now() == Step(old(Now()), FnEnds(c, r))
    {
      calls := calls[c := calls[c].(pc := Leaving(calls[c].pc.since, r))];
    }

    /** `rlock:unlock`, then return what `fn` returned, or nil and what it raised. */
    method Release(c: CallId) returns (reply: Option<Reply>)
      requires Enabled(Now(), Unlock(c))
      modifies this`dict, this`calls
      ensures Now() == Step(old(Now()), Unlock(c)) && Ended(c, reply)
    {
      var r := calls[c].pc.r;
      dict := dict - {calls[c].cfg.name};
      calls := calls[c := calls[c].(pc := Done(Ran(r)))];
      var ok, err;
      match r {
        case Values(vs) => ok, err := Nth(vs, 0), Nth(vs, 1);
        case Raise(e) => ok, err := Nil, e;
      }
      return Some(Return([ok, err]));
    }
  }
}
