/**
  The fluent assertion machine of scripts/explain_manifest/expect.py. A run is the sequence of
  everything done to one `ExpectChain` object, across all its expectations and suites.
*/
module ExpectChain {
  import opened Wrappers
  import opened Attributes
  import opened Sorting
  import opened Verbs

  /** The files under test, glob matching, and the verbs' rules for strings. */
  datatype Env = Env(infos: seq<Info>, selects: (string, seq<string>) -> bool, rules: Rules)

  /** An entry of `_all_failures`; the message text is not modelled. */
  datatype Failure =
    | StaleManifest
    | WrongCount(globs: seq<string>, count: nat)
    | WrongValue(relpath: string, attr: string, value: Value)

  datatype Op =
    | Manifest(useRpath: bool, stale: bool)  // compare_manifest; stale: there is a golden file and it differs
    | RunSuite(useRpath: bool)
    | Expect(globs: seq<string>)
    | Negate                                 // do_not, does_not, is_not
    | Key(key: string)
    | Exist                                  // exist, exists
    | Dot(name: string, arg: Value)          // any other name, called with `arg` if it is a verb

  datatype Chain = Chain(
    reverse: bool, files: seq<Info>, checks: nat, failures: nat, attr: Option<string>, key: Option<string>,
    ledger: seq<Failure>, useRpath: Option<bool>, globs: Option<seq<string>>, crashed: bool)

  function Init(): Chain {
    Chain(false, [], 0, 0, None, None, [], None, None, false)
  }

  // ----- One comparison over the selected files -----

  /** What one file does to the loop of `_compare`. */
  datatype Mark =
    | Missing                  // no such attribute: go on
    | Fine                     // as wanted: go on
    | NoKey                    // its dictionary lacks the key: the check passes here
    | Bad(value: Value)        // the check fails here
    | Broken                   // an exception leaves the loop

  datatype Query = Query(attr: string, key: Option<string>, reverse: bool, verb: Verb, arg: Value)

  function MarkOf(env: Env, q: Query, f: Info): Mark {
    match Get(f, q.attr)
    case Absent => Missing
    case Raised => Broken
    case Found(v) =>
      var keyed := q.key.Some? && q.key.value != "" && v.Dict?;
      if keyed && q.key.value !in v.entries then NoKey
      else
        var u := if keyed then v.entries[q.key.value] else v;
        var verdict := Judge(env.rules, q.verb, q.arg, u);
        if verdict.Breaks? then Broken
        else if verdict.Holds? == q.reverse then Bad(u)
        else Fine
  }

  /** The key applies: one was given, and the value is a dictionary. */
  predicate Keyed(q: Query, v: Value) {
    v.Dict? && q.key.Some? && |q.key.value| > 0
  }

  /** What each mark says. */
  lemma MarkMeans(env: Env, q: Query, f: Info)
    ensures MarkOf(env, q, f) == Missing <==> Get(f, q.attr) == Absent
    ensures MarkOf(env, q, f) == NoKey <==>
      Get(f, q.attr).Found? && Keyed(q, Get(f, q.attr).v) && q.key.value !in Get(f, q.attr).v.entries
    ensures forall v, u | Get(f, q.attr) == Found(v)
              && (if Keyed(q, v) then q.key.value in v.entries && u == v.entries[q.key.value] else u == v) ::
      && (MarkOf(env, q, f) == Broken <==> Judge(env.rules, q.verb, q.arg, u) == Breaks)
      && (MarkOf(env, q, f) == Bad(u) <==>
            Judge(env.rules, q.verb, q.arg, u) == if q.reverse then Holds else Verdict.Fails)
      && (MarkOf(env, q, f) == Fine <==>
            Judge(env.rules, q.verb, q.arg, u) == if q.reverse then Verdict.Fails else Holds)
    ensures Get(f, q.attr) == Raised ==> MarkOf(env, q, f) == Broken
  {
  }

  datatype Outcome = Passed | Violated(f: Failure) | Crashed

  predicate GoesOn(m: Mark) {
    m.Missing? || m.Fine?
  }

  function Compare(env: Env, q: Query, files: seq<Info>): Outcome {
    if files == [] then Passed
    else
      match MarkOf(env, q, files[0])
      case Bad(value) => Violated(WrongValue(files[0].relpath, q.attr, value))
      case NoKey => Passed
      case Broken => Crashed
      case _ => Compare(env, q, files[1..])
  }

  /** `i` is the first file at which the loop ends. */
  ghost predicate Decides(env: Env, q: Query, files: seq<Info>, i: nat) {
    i < |files| && !GoesOn(MarkOf(env, q, files[i])) && forall j | 0 <= j < i :: GoesOn(MarkOf(env, q, files[j]))
  }

  /**
    The check fails iff the first deciding file violates it, and reports that file; a file whose
    dictionary lacks the key decides for success and hides every later file.
  */
  lemma {:induction false} FirstDecidingFile(env: Env, q: Query, files: seq<Info>)
    ensures forall f :: Compare(env, q, files) == Violated(f) <==>
      exists i: nat :: Decides(env, q, files, i) && MarkOf(env, q, files[i]).Bad?
        && f == WrongValue(files[i].relpath, q.attr, MarkOf(env, q, files[i]).value)
    ensures Compare(env, q, files) == Crashed <==>
      exists i: nat :: Decides(env, q, files, i) && MarkOf(env, q, files[i]).Broken?
    ensures Compare(env, q, files) == Passed <==>
      forall i: nat :: Decides(env, q, files, i) ==> MarkOf(env, q, files[i]).NoKey?
  {
    if files != [] {
      var rest := files[1..];
      FirstDecidingFile(env, q, rest);
      if GoesOn(MarkOf(env, q, files[0])) {
        forall i: nat ensures Decides(env, q, files, i) <==> 0 < i && Decides(env, q, rest, i - 1) {
          if 0 < i && Decides(env, q, rest, i - 1) {
            forall j | 0 <= j < i ensures GoesOn(MarkOf(env, q, files[j])) {
              assert j > 0 ==> files[j] == rest[j - 1];
            }
          }
          if Decides(env, q, files, i) {
            forall j | 0 <= j < i - 1 ensures GoesOn(MarkOf(env, q, rest[j])) {
              assert rest[j] == files[j + 1];
            }
          }
        }
        assert forall i: nat :: Decides(env, q, rest, i) ==> Decides(env, q, files, i + 1);
      } else {
        assert Decides(env, q, files, 0);
        assert forall i: nat :: Decides(env, q, files, i) ==> i == 0;
      }
    }
  }

  /** When every file has the attribute and the key, and nothing raises, a check passes iff no file violates it. */
  lemma WithAllKeysEveryFileCounts(env: Env, q: Query, files: seq<Info>)
    requires forall f | f in files :: MarkOf(env, q, f).Fine? || MarkOf(env, q, f).Bad?
    ensures Compare(env, q, files).Passed? <==> forall f | f in files :: MarkOf(env, q, f).Fine?
    ensures Compare(env, q, files).Violated? <==> exists f :: f in files && MarkOf(env, q, f).Bad?
  {
    FirstDecidingFile(env, q, files);
    if f :| f in files && MarkOf(env, q, f).Bad? {
      var i := FirstBad(env, q, files);
      assert Decides(env, q, files, i);
    }
    if Compare(env, q, files).Violated? {
      var f := Compare(env, q, files).f;
      assert Compare(env, q, files) == Violated(f);
    }
  }

  /** The file's dictionary lacks the key. */
  predicate Lacks(f: Info, attr: string, key: string) {
    Get(f, attr).Found? && Get(f, attr).v.Dict? && key !in Get(f, attr).v.entries
  }

  /** What a verb is asked about: the value under the key, or a value that is no dictionary. */
  function Subject(f: Info, attr: string, key: string): Value
    requires Get(f, attr).Found? && !Lacks(f, attr, key)
  {
    var v := Get(f, attr).v;
    if v.Dict? then v.entries[key] else v
  }

  /** `i` is the first file whose dictionary lacks the key. */
  predicate FirstLacking(files: seq<Info>, attr: string, key: string, i: nat) {
    i < |files| && Lacks(files[i], attr, key) && forall j | 0 <= j < i :: !Lacks(files[j], attr, key)
  }

  /** File `j` comes after the file that ends the loop, and says something no file before that one says. */
  predicate Hidden(files: seq<Info>, attr: string, key: string, i: nat, j: nat)
    requires forall f | f in files :: Get(f, attr).Found?
  {
    FirstLacking(files, attr, key, i) && i < j < |files| && !Lacks(files[j], attr, key)
    && forall l | 0 <= l < i ::
         AsNumber(Subject(files[l], attr, key)) != AsNumber(Subject(files[j], attr, key))
  }

  ghost predicate AsksAbout(env: Env, q: Query, attr: string, key: string, files: seq<Info>) {
    q.attr == attr && q.key == Some(key) && forall f | f in files :: !MarkOf(env, q, f).Broken?
  }

  ghost predicate SaysAll(env: Env, q: Query, files: seq<Info>) {
    Compare(env, q, files).Passed? <==> forall f | f in files :: !MarkOf(env, q, f).Bad?
  }

  lemma DecidedBy(env: Env, q: Query, files: seq<Info>, i: nat)
    requires Decides(env, q, files, i) && MarkOf(env, q, files[i]).NoKey?
    ensures Compare(env, q, files).Passed?
  {
    FirstDecidingFile(env, q, files);
  }

  lemma HiddenFileIsMissed(env: Env, attr: string, key: string, files: seq<Info>, i: nat, j: nat) returns (q: Query)
    requires key != "" && (forall f | f in files :: Get(f, attr).Found?) && Hidden(files, attr, key, i, j)
    ensures AsksAbout(env, q, attr, key, files) && !SaysAll(env, q, files)
    ensures Compare(env, q, files).Passed? && MarkOf(env, q, files[j]).Bad?
  {
    q := Query(attr, Some(key), true, Equal, Subject(files[j], attr, key));
    forall f | f in files ensures !MarkOf(env, q, f).Broken? {
    }
    forall l | 0 <= l < i ensures MarkOf(env, q, files[l]).Fine? {
      MarkBySubject(env, q, files[l], key);
    }
    MarkBySubject(env, q, files[j], key);
    assert Decides(env, q, files, i) && MarkOf(env, q, files[i]).NoKey?;
    DecidedBy(env, q, files, i);
  }

  function KeyedFile(path: string, entries: map<string, Value>): Info {
    Info(path, map["d" := Dict(entries)], map[])
  }

  /** For one: of the values 1 and 2 under "k" the second is never asked about, as a file between lacks "k". */
  lemma HiddenExample(env: Env) returns (files: seq<Info>, q: Query)
    ensures files == [KeyedFile("a", map["k" := Int(1)]), KeyedFile("b", map[]), KeyedFile("c", map["k" := Int(2)])]
    ensures AsksAbout(env, q, "d", "k", files) && Compare(env, q, files).Passed? && MarkOf(env, q, files[2]).Bad?
  {
    files := [KeyedFile("a", map["k" := Int(1)]), KeyedFile("b", map[]), KeyedFile("c", map["k" := Int(2)])];
    assert FirstLacking(files, "d", "k", 1) && Hidden(files, "d", "k", 1, 2);
    q := HiddenFileIsMissed(env, "d", "k", files, 1, 2);
  }

  lemma SameSubjectSameMark(env: Env, q: Query, f: Info, g: Info, key: string)
    requires q.key == Some(key) && key != "" && Get(f, q.attr).Found? && Get(g, q.attr).Found?
    requires !Lacks(f, q.attr, key) && !Lacks(g, q.attr, key)
    requires AsNumber(Subject(f, q.attr, key)) == AsNumber(Subject(g, q.attr, key))
    ensures MarkOf(env, q, f).Bad? <==> MarkOf(env, q, g).Bad?
  {
    MarkBySubject(env, q, f, key);
    MarkBySubject(env, q, g, key);
    JudgeByNumber(env.rules, q.verb, q.arg, Subject(f, q.attr, key), Subject(g, q.attr, key));
  }

  lemma MarkBySubject(env: Env, q: Query, f: Info, key: string)
    requires q.key == Some(key) && key != "" && Get(f, q.attr).Found? && !Lacks(f, q.attr, key)
    ensures MarkOf(env, q, f).Bad? <==>
      var verdict := Judge(env.rules, q.verb, q.arg, Subject(f, q.attr, key));
      !verdict.Breaks? && verdict.Holds? == q.reverse
  {
  }

  lemma NothingHiddenSaysAll(env: Env, q: Query, files: seq<Info>, key: string)
    requires key != "" && forall f | f in files :: Get(f, q.attr).Found?
    requires AsksAbout(env, q, q.attr, key, files) && forall i, j :: !Hidden(files, q.attr, key, i, j)
    ensures SaysAll(env, q, files)
  {
    FirstDecidingFile(env, q, files);
    if Compare(env, q, files).Passed? {
      forall j | 0 <= j < |files| ensures !MarkOf(env, q, files[j]).Bad? {
        if MarkOf(env, q, files[j]).Bad? {
          var i := FirstNotGoing(env, q, files, j);
          assert Decides(env, q, files, i) && MarkOf(env, q, files[i]).NoKey?;
          assert FirstLacking(files, q.attr, key, i) && !Hidden(files, q.attr, key, i, j);
          var l :| 0 <= l < i && AsNumber(Subject(files[l], q.attr, key)) == AsNumber(Subject(files[j], q.attr, key));
          SameSubjectSameMark(env, q, files[l], files[j], key);
        }
      }
    } else if i: nat :| Decides(env, q, files, i) && !MarkOf(env, q, files[i]).NoKey? {
      assert MarkOf(env, q, files[i]).Bad?;
    }
  }

  lemma {:induction false} FirstNotGoing(env: Env, q: Query, files: seq<Info>, j: nat) returns (i: nat)
    requires j < |files| && !GoesOn(MarkOf(env, q, files[j]))
    ensures i <= j && Decides(env, q, files, i)
  {
    i := j;
    if k: nat :| k < j && !GoesOn(MarkOf(env, q, files[k])) {
      i := FirstNotGoing(env, q, files, k);
    }
  }

  /**
    Exactly when a check on a key says what it seems to say, that no file violates it, whatever is
    asked without raising: iff every file after the first that lacks the key holds a value that some
    file before that one holds too.
  */
  lemma SaysAllIffNothingHidden(env: Env, attr: string, key: string, files: seq<Info>)
    requires key != "" && forall f | f in files :: Get(f, attr).Found?
    ensures (forall q :: AsksAbout(env, q, attr, key, files) ==> SaysAll(env, q, files))
            <==> forall i, j :: !Hidden(files, attr, key, i, j)
  {
    if i: nat, j: nat :| Hidden(files, attr, key, i, j) {
      var q := HiddenFileIsMissed(env, attr, key, files, i, j);
    } else {
      forall q | AsksAbout(env, q, attr, key, files) ensures SaysAll(env, q, files) {
        NothingHiddenSaysAll(env, q, files, key);
      }
    }
  }

  predicate HasVersions(f: Info, attr: string, key: string) {
    Get(f, attr).Found? && Get(f, attr).v.Dict? && key in Get(f, attr).v.entries
    && Get(f, attr).v.entries[key].Versions? && Get(f, attr).v.entries[key].items != []
  }

  function VersionsOf(f: Info, attr: string, key: string): seq<string>
    requires HasVersions(f, attr, key)
  {
    Get(f, attr).v.entries[key].items
  }

  /**
    What the suites' `.key(k).is_not().greater_than(bound)` says: it passes iff every file lists some
    version at most the bound, which is weaker than "no version exceeds the bound".
  */
  lemma NotGreaterThanMeansSomeAtMost(env: Env, attr: string, key: string, bound: string, files: seq<Info>)
    requires WeakOrder(env.rules.less) && key != "" && forall f | f in files :: HasVersions(f, attr, key)
    ensures Compare(env, Query(attr, Some(key), true, GreaterThan, Text(bound)), files).Passed? <==>
      forall f | f in files :: exists x :: x in VersionsOf(f, attr, key) && !env.rules.less(bound, x)
  {
    var q := Query(attr, Some(key), true, GreaterThan, Text(bound));
    forall f | f in files
      ensures MarkOf(env, q, f).Fine? || MarkOf(env, q, f).Bad?
      ensures MarkOf(env, q, f).Fine? <==> exists x :: x in VersionsOf(f, attr, key) && !env.rules.less(bound, x)
    {
      GreaterThanMeansAll(env.rules, bound, Versions(VersionsOf(f, attr, key)));
    }
    WithAllKeysEveryFileCounts(env, q, files);
  }

  lemma {:induction false} FirstBad(env: Env, q: Query, files: seq<Info>) returns (i: nat)
    requires exists f :: f in files && MarkOf(env, q, f).Bad?
    requires forall f | f in files :: MarkOf(env, q, f).Fine? || MarkOf(env, q, f).Bad?
    ensures Decides(env, q, files, i)
  {
    if MarkOf(env, q, files[0]).Bad? {
      i := 0;
    } else {
      i := FirstBad(env, q, files[1..]);
      i := i + 1;
    }
  }

  // ----- One operation -----

  function Select(env: Env, infos: seq<Info>, globs: seq<string>): seq<Info> {
    if infos == [] then []
    else (if env.selects(infos[0].relpath, globs) then [infos[0]] else []) + Select(env, infos[1..], globs)
  }

  datatype Presence = AllPresent | SomeAbsent | LookupRaises

  function Present(files: seq<Info>, attr: string): Presence {
    if files == [] then AllPresent
    else
      match Get(files[0], attr)
      case Found(_) => Present(files[1..], attr)
      case Absent => SomeAbsent
      case Raised => LookupRaises
  }

  function Alias(useRpath: bool, name: string): string {
    if useRpath && name == "runpath" then "rpath"
    else if !useRpath && name == "rpath" then "runpath"
    else name
  }

  function Fail(st: Chain, f: Failure): Chain {
    st.(ledger := st.ledger + [f], failures := st.failures + 1)
  }

  function Record(st: Chain, o: Outcome): Chain {
    match o
    case Passed => st
    case Violated(f) => Fail(st, f)
    case Crashed => st.(crashed := true)
  }

  /** A chain starts with `expect`: suites are handed nothing else. */
  predicate Enabled(st: Chain, op: Op) {
    st.globs.Some? || op.Manifest? || op.RunSuite? || op.Expect?
  }

  function QueryAt(st: Chain, verb: Verb, arg: Value): Query
    requires st.attr.Some?
  {
    Query(st.attr.value, st.key, st.reverse, verb, arg)
  }

  /** Without a current suite the access never ends; Python raises. */
  function SetAttribute(st: Chain, name: string): Chain {
    if st.useRpath.None? then st.(crashed := true)
    else st.(attr := Some(Alias(st.useRpath.value, name)), reverse := false, key := None)
  }

  /** There is no `_does_not` to call. */
  function CarryOut(env: Env, st: Chain, verb: Verb, arg: Value): Chain
    requires st.attr.Some?
  {
    if verb.DoesNot? then st.(crashed := true)
    else Record(st.(checks := st.checks + 1), Compare(env, QueryAt(st, verb, arg), st.files))
  }

  function Perform(env: Env, st: Chain, verb: Verb, arg: Value): Chain {
    if st.attr.None? then st
    else
      match Present(st.files, st.attr.value)
      case SomeAbsent => st
      case LookupRaises => st.(crashed := true)
      case AllPresent => CarryOut(env, st, verb, arg)
  }

  function Step(env: Env, st: Chain, op: Op): Chain
    requires Enabled(st, op)
  {
    if st.crashed then st
    else
      match op
      case Manifest(u, stale) =>
        var st := st.(useRpath := Some(u));
        if stale then Fail(st, StaleManifest) else st
      case RunSuite(u) => st.(useRpath := Some(u))
      case Expect(globs) =>
        st.(reverse := false, files := Select(env, env.infos, globs), checks := 0, failures := 0, attr := None,
            globs := Some(globs))
      case Negate => st.(reverse := true)
      case Key(k) => st.(key := Some(k))
      case Exist =>
        var st := st.(checks := st.checks + 1);
        if (|st.files| > 0) == st.reverse then Fail(st, WrongCount(st.globs.value, |st.files|)) else st
      case Dot(name, arg) =>
        match VerbOf(name)
        case None => SetAttribute(st, name)
        case Some(verb) => Perform(env, st, verb, arg)
  }

  // ----- Runs -----

  predicate Legal(env: Env, ops: seq<Op>)
    decreases |ops|, 0
  {
    ops == [] ||
    (Legal(env, ops[..|ops| - 1]) && Enabled(After(env, ops[..|ops| - 1]), ops[|ops| - 1]))
  }

  function After(env: Env, ops: seq<Op>): Chain
    requires Legal(env, ops)
    decreases |ops|, 1
  {
    if ops == [] then Init() else Step(env, After(env, ops[..|ops| - 1]), ops[|ops| - 1])
  }

  // ----- What every chain of calls means -----

  predicate IsAttr(op: Op) {
    op.Dot? && VerbOf(op.name).None?
  }

  predicate Clears(op: Op) {
    IsAttr(op) || op.Expect?
  }

  /** The attribute last accessed since `expect`. */
  ghost predicate LastAttr(ops: seq<Op>, j: nat) {
    j < |ops| && IsAttr(ops[j]) && forall k | j < k < |ops| :: !Clears(ops[k])
  }

  /** The last key given since that access. */
  ghost predicate LastKey(ops: seq<Op>, j: nat) {
    j < |ops| && ops[j].Key? && forall k | j < k < |ops| :: !ops[k].Key? && !Clears(ops[k])
  }

  /** A negation came since that access. */
  ghost predicate Negated(ops: seq<Op>) {
    exists j: nat :: j < |ops| && ops[j].Negate? && forall k | j < k < |ops| :: !Clears(ops[k])
  }

  ghost predicate LastExpect(ops: seq<Op>, j: nat) {
    j < |ops| && ops[j].Expect? && forall k | j < k < |ops| :: !ops[k].Expect?
  }

  /** The part of the state a verb depends on, and how each operation changes it. */
  datatype Context = Context(attr: Option<string>, key: Option<string>, reverse: bool, files: seq<Info>,
                             globs: Option<seq<string>>)

  function ContextOf(st: Chain): Context {
    Context(st.attr, st.key, st.reverse, st.files, st.globs)
  }

  /** What an operation does to it. */
  function Moved(env: Env, c: Context, useRpath: Option<bool>, op: Op): Context {
    if IsAttr(op) then c.(attr := Some(Alias(useRpath.GetOr(false), op.name)), key := None, reverse := false)
    else match op
         case Expect(globs) => Context(None, c.key, false, Select(env, env.infos, globs), Some(globs))
         case Negate => c.(reverse := true)
         case Key(k) => c.(key := Some(k))
         case _ => c
  }

  lemma RecordKeepsContext(st: Chain, o: Outcome)
    ensures ContextOf(Record(st, o)) == ContextOf(st) && (st.crashed ==> Record(st, o).crashed)
    ensures Record(st, o).useRpath == st.useRpath
  {
  }

  lemma PerformKeepsContext(env: Env, st: Chain, verb: Verb, arg: Value)
    ensures ContextOf(Perform(env, st, verb, arg)) == ContextOf(st)
    ensures Perform(env, st, verb, arg).useRpath == st.useRpath
    ensures st.crashed ==> Perform(env, st, verb, arg).crashed
  {
    if st.attr.Some? {
      RecordKeepsContext(st.(checks := st.checks + 1), Compare(env, QueryAt(st, verb, arg), st.files));
    }
  }

  lemma StepContext(env: Env, st: Chain, op: Op)
    requires Enabled(st, op) && !Step(env, st, op).crashed
    ensures !st.crashed && (IsAttr(op) ==> st.useRpath.Some?)
    ensures ContextOf(Step(env, st, op)) == Moved(env, ContextOf(st), st.useRpath, op)
  {
    if op.Dot? && VerbOf(op.name).Some? {
      PerformKeepsContext(env, st, VerbOf(op.name).value, op.arg);
    }
  }

  /** The last operation of a non-empty run, split off. */
  lemma LastStep(env: Env, ops: seq<Op>) returns (before: seq<Op>, op: Op)
    requires Legal(env, ops) && !After(env, ops).crashed && ops != []
    ensures ops == before + [op] && |before| < |ops| && Legal(env, before) && !After(env, before).crashed
    ensures IsAttr(op) ==> After(env, before).useRpath.Some?
    ensures ContextOf(After(env, ops)) == Moved(env, ContextOf(After(env, before)), After(env, before).useRpath, op)
  {
    before, op := ops[..|ops| - 1], ops[|ops| - 1];
    StepContext(env, After(env, before), op);
  }

  lemma Snoc(before: seq<Op>, op: Op)
    ensures var ops := before + [op];
      && (forall j: nat :: LastAttr(ops, j) <==>
           if j == |before| then IsAttr(op) else LastAttr(before, j) && !Clears(op))
      && (forall j: nat :: LastKey(ops, j) <==>
           if j == |before| then op.Key? else LastKey(before, j) && !op.Key? && !Clears(op))
      && (forall j: nat :: LastExpect(ops, j) <==>
           if j == |before| then op.Expect? else LastExpect(before, j) && !op.Expect?)
      && (Negated(ops) <==> op.Negate? || (Negated(before) && !Clears(op)))
  {
    var ops := before + [op];
    if Negated(before) && !Clears(op) {
      var j: nat :| j < |before| && before[j].Negate? && forall k | j < k < |before| :: !Clears(before[k]);
      assert ops[j].Negate?;
    }
    if op.Negate? {
      assert ops[|before|].Negate?;
    }
    if Negated(ops) && !op.Negate? {
      var j: nat :| j < |ops| && ops[j].Negate? && forall k | j < k < |ops| :: !Clears(ops[k]);
      assert before[j].Negate?;
      assert forall k | j < k < |before| :: before[k] == ops[k];
      assert ops[|before|] == op;
    }
    forall j: nat ensures LastAttr(ops, j) <==>
           if j == |before| then IsAttr(op) else LastAttr(before, j) && !Clears(op) {
      assert forall k | 0 <= k < |before| :: before[k] == ops[k];
      assert ops[|before|] == op;
    }
    forall j: nat ensures LastKey(ops, j) <==>
           if j == |before| then op.Key? else LastKey(before, j) && !op.Key? && !Clears(op) {
      assert forall k | 0 <= k < |before| :: before[k] == ops[k];
      assert ops[|before|] == op;
    }
    forall j: nat ensures LastExpect(ops, j) <==>
           if j == |before| then op.Expect? else LastExpect(before, j) && !op.Expect? {
      assert forall k | 0 <= k < |before| :: before[k] == ops[k];
      assert ops[|before|] == op;
    }
  }

  /** Both names of the path attribute lead to the one that the suite uses. */
  lemma OneName(useRpath: bool, name: string)
    ensures Alias(useRpath, name)
         == if name != "rpath" && name != "runpath" then name else if useRpath then "rpath" else "runpath"
  {
  }

  /** A verb runs with the attribute last accessed since `expect`, under the suite's name for it. */
  lemma {:induction false} AttributeExact(env: Env, ops: seq<Op>)
    requires Legal(env, ops) && !After(env, ops).crashed
    ensures After(env, ops).attr.Some? <==> exists j: nat :: LastAttr(ops, j)
    ensures forall j: nat | LastAttr(ops, j) ::
      && Legal(env, ops[..j]) && After(env, ops[..j]).useRpath.Some?
      && After(env, ops).attr == Some(Alias(After(env, ops[..j]).useRpath.value, ops[j].name))
      && After(env, ops).attr == Some(
           if ops[j].name != "rpath" && ops[j].name != "runpath" then ops[j].name
           else if After(env, ops[..j]).useRpath.value then "rpath" else "runpath")
  {
    if ops != [] {
      var before, op := LastStep(env, ops);
      AttributeExact(env, before);
      Snoc(before, op);
      if IsAttr(op) {
        OneName(After(env, before).useRpath.value, op.name);
      }
      if IsAttr(op) {
        assert LastAttr(ops, |before|);
      }
      forall j: nat | LastAttr(ops, j) && j < |before| ensures ops[..j] == before[..j] {
      }
    }
  }

  /** ... with the last key given after that access, and none from an earlier expectation. */
  lemma {:induction false} KeyExact(env: Env, ops: seq<Op>)
    requires Legal(env, ops) && !After(env, ops).crashed && After(env, ops).attr.Some?
    ensures After(env, ops).key.Some? <==> exists j: nat :: LastKey(ops, j)
    ensures forall j: nat | LastKey(ops, j) :: After(env, ops).key == Some(ops[j].key)
  {
    var before, op := LastStep(env, ops);
    Snoc(before, op);
    if IsAttr(op) {
      assert forall j: nat :: !LastKey(ops, j);
    } else {
      KeyExact(env, before);
      if op.Key? {
        assert LastKey(ops, |before|);
      } else {
        assert forall j: nat :: LastKey(ops, j) <==> LastKey(before, j);
      }
    }
  }

  /** ... and negated exactly when a negation came after that access. */
  lemma {:induction false} NegationExact(env: Env, ops: seq<Op>)
    requires Legal(env, ops) && !After(env, ops).crashed
    ensures After(env, ops).reverse <==> Negated(ops)
  {
    if ops != [] {
      var before, op := LastStep(env, ops);
      NegationExact(env, before);
      Snoc(before, op);
    }
  }

  /** The files are those the last `expect` selected. */
  lemma {:induction false} FilesExact(env: Env, ops: seq<Op>)
    requires Legal(env, ops) && !After(env, ops).crashed
    ensures After(env, ops).globs.Some? <==> exists j: nat :: LastExpect(ops, j)
    ensures forall j: nat | LastExpect(ops, j) ::
      After(env, ops).globs == Some(ops[j].globs) && After(env, ops).files == Select(env, env.infos, ops[j].globs)
  {
    if ops != [] {
      var before, op := LastStep(env, ops);
      FilesExact(env, before);
      Snoc(before, op);
      if op.Expect? {
        assert LastExpect(ops, |before|);
      }
    }
  }

  predicate NamesSuite(op: Op) {
    op.Manifest? || op.RunSuite?
  }

  /** The suite last named, to compare its manifest or to run it. */
  ghost predicate LastSuite(ops: seq<Op>, j: nat) {
    j < |ops| && NamesSuite(ops[j]) && forall k | j < k < |ops| :: !NamesSuite(ops[k])
  }

  lemma StepSuite(env: Env, st: Chain, op: Op)
    requires Enabled(st, op) && !Step(env, st, op).crashed
    ensures !st.crashed
    ensures Step(env, st, op).useRpath == if NamesSuite(op) then Some(op.useRpath) else st.useRpath
  {
    match op {
      case Dot(name, arg) =>
        match VerbOf(name) {
          case None => assert Step(env, st, op) == if st.crashed then st else SetAttribute(st, name);
          case Some(verb) =>
            PerformKeepsContext(env, st, verb, arg);
            assert Step(env, st, op) == if st.crashed then st else Perform(env, st, verb, arg);
        }
      case _ =>
    }
  }

  /** The path attribute's name is that of the suite last named. */
  lemma {:induction false} SuiteExact(env: Env, ops: seq<Op>)
    requires Legal(env, ops) && !After(env, ops).crashed
    ensures After(env, ops).useRpath.Some? <==> exists j: nat :: LastSuite(ops, j)
    ensures forall j: nat | LastSuite(ops, j) :: After(env, ops).useRpath == Some(ops[j].useRpath)
  {
    if ops != [] {
      var before, op := ops[..|ops| - 1], ops[|ops| - 1];
      assert ops == before + [op];
      StepSuite(env, After(env, before), op);
      SuiteExact(env, before);
      SnocSuite(before, op);
      assert LastSuite(ops, |before|) <==> NamesSuite(op);
    }
  }

  lemma SnocSuite(before: seq<Op>, op: Op)
    ensures forall j: nat :: LastSuite(before + [op], j) <==>
      if j == |before| then NamesSuite(op) else LastSuite(before, j) && !NamesSuite(op)
  {
    var ops := before + [op];
    forall j: nat ensures LastSuite(ops, j) <==>
           if j == |before| then NamesSuite(op) else LastSuite(before, j) && !NamesSuite(op) {
      assert forall k | 0 <= k < |before| :: before[k] == ops[k];
      assert ops[|before|] == op;
    }
  }

  /** The selected files are those that match, each once and in order. */
  lemma {:induction false} SelectExact(env: Env, infos: seq<Info>, globs: seq<string>) returns (chosen: seq<nat>)
    ensures forall i: nat :: i in chosen <==> i < |infos| && env.selects(infos[i].relpath, globs)
    ensures forall k, l | 0 <= k < l < |chosen| :: chosen[k] < chosen[l]
    ensures |Select(env, infos, globs)| == |chosen|
    ensures forall k | 0 <= k < |chosen| ::
      chosen[k] < |infos| && Select(env, infos, globs)[k] == infos[chosen[k]]
  {
    if infos == [] {
      chosen := [];
    } else {
      var n := |infos| - 1;
      chosen := SelectExact(env, infos[..n], globs);
      SelectStep(env, infos, globs, n);
      assert infos[..n + 1] == infos;
      if env.selects(infos[n].relpath, globs) {
        chosen := chosen + [n];
      }
    }
  }

  // ----- The verdict -----

  /** The verb of `op` is carried out: an attribute is set and every selected file has it. */
  predicate Executes(st: Chain, op: Op) {
    !st.crashed && op.Dot? && VerbOf(op.name).Some? && !VerbOf(op.name).value.DoesNot?
    && st.attr.Some? && forall g | g in st.files :: Get(g, st.attr.value).Found?
  }

  /** What makes an operation record the failure `f`. */
  ghost predicate Fails(env: Env, st: Chain, op: Op, f: Failure) {
    !st.crashed &&
    match op
    case Manifest(_, stale) => stale && f == StaleManifest
    case Exist => (st.files != []) == st.reverse && st.globs.Some? && f == WrongCount(st.globs.value, |st.files|)
    case Dot(name, arg) =>
      Executes(st, op) &&
      var q := QueryAt(st, VerbOf(name).value, arg);
      exists i: nat :: Decides(env, q, st.files, i) && MarkOf(env, q, st.files[i]).Bad?
        && f == WrongValue(st.files[i].relpath, q.attr, MarkOf(env, q, st.files[i]).value)
    case _ => false
  }

  predicate Checks(st: Chain, op: Op) {
    !st.crashed && (op.Exist? || Executes(st, op))
  }

  lemma {:induction false} PresentIffAllFound(files: seq<Info>, attr: string)
    ensures Present(files, attr) == AllPresent <==> forall g | g in files :: Get(g, attr).Found?
  {
    if files != [] {
      PresentIffAllFound(files[1..], attr);
      assert forall g :: g in files <==> g == files[0] || g in files[1..];
    }
  }

  /** A verb with no attribute set, or with a file that lacks it, leaves no trace in the verdict. */
  lemma UnexecutedVerbIsSilent(env: Env, st: Chain, op: Op)
    requires Enabled(st, op) && op.Dot? && VerbOf(op.name).Some? && !Executes(st, op)
    requires !Step(env, st, op).crashed
    ensures Step(env, st, op) == st
  {
    assert Step(env, st, op) == if st.crashed then st else Perform(env, st, VerbOf(op.name).value, op.arg);
    if st.attr.Some? {
      UnexecutedPerform(env, st, VerbOf(op.name).value, op.arg);
    }
  }

  lemma UnexecutedPerform(env: Env, st: Chain, verb: Verb, arg: Value)
    requires st.attr.Some? && !st.crashed && !Perform(env, st, verb, arg).crashed
    requires verb.DoesNot? || !forall g | g in st.files :: Get(g, st.attr.value).Found?
    ensures Perform(env, st, verb, arg) == st
  {
    PresentIffAllFound(st.files, st.attr.value);
  }

  // ----- When a call raises -----

  predicate IsVerb(op: Op) {
    op.Dot? && VerbOf(op.name).Some?
  }

  predicate AllFound(files: seq<Info>, attr: string) {
    forall g | g in files :: Get(g, attr).Found?
  }

  /** The first file that does not have the attribute raises when it is looked up. */
  ghost predicate LookupFails(files: seq<Info>, attr: string) {
    exists i: nat :: i < |files| && Get(files[i], attr).Raised? && forall j | 0 <= j < i :: Get(files[j], attr).Found?
  }

  /**
    A call raises: an attribute is accessed without a suite; a verb's attribute cannot be looked up;
    there is no such verb to call; or the first deciding file raises.
  */
  ghost predicate Raises(env: Env, st: Chain, op: Op) {
    || (IsAttr(op) && st.useRpath.None?)
    || (IsVerb(op) && st.attr.Some? && LookupFails(st.files, st.attr.value))
    || (IsVerb(op) && st.attr.Some? && AllFound(st.files, st.attr.value) && VerbOf(op.name).value.DoesNot?)
    || (Executes(st, op) &&
        exists i: nat :: var q := QueryAt(st, VerbOf(op.name).value, op.arg);
          Decides(env, q, st.files, i) && MarkOf(env, q, st.files[i]).Broken?)
  }

  lemma {:induction false} PresentRaises(files: seq<Info>, attr: string)
    ensures Present(files, attr) == LookupRaises <==> LookupFails(files, attr)
  {
    if files != [] {
      var rest := files[1..];
      PresentRaises(rest, attr);
      if Get(files[0], attr).Found? {
        if i: nat :| i < |rest| && Get(rest[i], attr).Raised? && forall j | 0 <= j < i :: Get(rest[j], attr).Found? {
          assert files[i + 1] == rest[i];
          forall j | 0 <= j < i + 1 ensures Get(files[j], attr).Found? {
            assert j > 0 ==> files[j] == rest[j - 1];
          }
        }
        if i: nat :| i < |files| && Get(files[i], attr).Raised? && forall j | 0 <= j < i :: Get(files[j], attr).Found? {
          assert files[i] == rest[i - 1];
          forall j | 0 <= j < i - 1 ensures Get(rest[j], attr).Found? {
            assert rest[j] == files[j + 1];
          }
        }
      }
    }
  }

  /** Exactly when a call raises. */
  lemma StepCrashesIff(env: Env, st: Chain, op: Op)
    requires Enabled(st, op) && !st.crashed
    ensures Step(env, st, op).crashed <==> Raises(env, st, op)
  {
    if IsVerb(op) && st.attr.Some? {
      PresentIffAllFound(st.files, st.attr.value);
      PresentRaises(st.files, st.attr.value);
      if Executes(st, op) {
        FirstDecidingFile(env, QueryAt(st, VerbOf(op.name).value, op.arg), st.files);
      }
    }
  }

  ghost predicate RaisedAt(env: Env, ops: seq<Op>, i: nat) {
    i < |ops| && Legal(env, ops[..i]) && !After(env, ops[..i]).crashed && Raises(env, After(env, ops[..i]), ops[i])
  }

  lemma RaisedEarlier(env: Env, before: seq<Op>, op: Op, i: nat)
    requires i < |before|
    ensures RaisedAt(env, before + [op], i) <==> RaisedAt(env, before, i)
  {
    assert (before + [op])[..i] == before[..i] && (before + [op])[i] == before[i];
  }

  lemma RaisedLast(env: Env, before: seq<Op>, op: Op)
    requires Legal(env, before + [op]) && Legal(env, before)
    ensures RaisedAt(env, before + [op], |before|)
      <==> !After(env, before).crashed && Raises(env, After(env, before), op)
  {
    assert (before + [op])[..|before|] == before;
  }

  /** A run ends with an exception exactly if some call of it raised. */
  lemma {:induction false} CrashedIff(env: Env, ops: seq<Op>)
    requires Legal(env, ops)
    ensures After(env, ops).crashed <==> exists i: nat :: RaisedAt(env, ops, i)
  {
    if ops != [] {
      var before, op := ops[..|ops| - 1], ops[|ops| - 1];
      assert ops == before + [op];
      CrashedIff(env, before);
      forall i: nat | i < |before| ensures RaisedAt(env, ops, i) <==> RaisedAt(env, before, i) {
        RaisedEarlier(env, before, op, i);
      }
      RaisedLast(env, before, op);
      AfterLast(env, before, op);
    }
  }

  lemma AfterLast(env: Env, before: seq<Op>, op: Op)
    requires Legal(env, before + [op])
    ensures Legal(env, before) && Enabled(After(env, before), op)
    ensures After(env, before + [op]).crashed
      <==> After(env, before).crashed || Raises(env, After(env, before), op)
  {
    assert (before + [op])[..|before|] == before;
    if !After(env, before).crashed {
      StepCrashesIff(env, After(env, before), op);
    }
  }

  lemma StepLedger(env: Env, st: Chain, op: Op)
    requires Enabled(st, op)
    ensures var st' := Step(env, st, op);
      && (forall f :: Fails(env, st, op, f) ==> st'.ledger == st.ledger + [f])
      && ((forall f :: !Fails(env, st, op, f)) ==> st'.ledger == st.ledger)
      && (!op.Expect? || st.crashed ==>
            |st'.ledger| - |st.ledger| == st'.failures - st.failures
            && st'.checks == st.checks + (if Checks(st, op) then 1 else 0))
      && (op.Expect? && !st.crashed ==> st'.failures == st'.checks == 0)
  {
    if op.Manifest? && op.stale && !st.crashed {
      assert Fails(env, st, op, StaleManifest);
    }
    if op.Exist? && (st.files != []) == st.reverse && !st.crashed {
      assert Fails(env, st, op, WrongCount(st.globs.value, |st.files|));
    }
    if !st.crashed && op.Dot? && VerbOf(op.name).Some? && st.attr.Some? {
      PresentIffAllFound(st.files, st.attr.value);
      if Executes(st, op) {
        StepExecutes(env, st, op);
      }
    }
  }

  lemma StepExecutes(env: Env, st: Chain, op: Op)
    requires Enabled(st, op) && Executes(st, op)
    ensures var st' := Step(env, st, op);
      && (forall f :: Fails(env, st, op, f) ==> st'.ledger == st.ledger + [f] && st'.failures == st.failures + 1)
      && ((forall f :: !Fails(env, st, op, f)) ==> st'.ledger == st.ledger && st'.failures == st.failures)
      && st'.checks == st.checks + 1
  {
    PresentIffAllFound(st.files, st.attr.value);
    var q := QueryAt(st, VerbOf(op.name).value, op.arg);
    FirstDecidingFile(env, q, st.files);
    forall f ensures Fails(env, st, op, f) <==> Compare(env, q, st.files) == Violated(f) {
    }
    if Compare(env, q, st.files).Violated? {
      assert Fails(env, st, op, Compare(env, q, st.files).f);
    }
  }

  /**
    Whenever a verb counts a check, every file has the attribute: the comparison loop is entered in
    no other state, and its skip of files without the attribute is never taken from a chain.
  */
  lemma NoFileIsSkipped(env: Env, st: Chain, op: Op)
    requires Enabled(st, op) && op.Dot? && Step(env, st, op).checks > st.checks
    ensures Executes(st, op)
    ensures forall g | g in st.files :: !MarkOf(env, QueryAt(st, VerbOf(op.name).value, op.arg), g).Missing?
  {
    StepLedger(env, st, op);
  }

  ghost predicate FailedAt(env: Env, ops: seq<Op>, i: nat) {
    i < |ops| && Legal(env, ops[..i]) && exists f :: Fails(env, After(env, ops[..i]), ops[i], f)
  }

  predicate CheckedAt(env: Env, ops: seq<Op>, i: nat) {
    i < |ops| && Legal(env, ops[..i]) && Checks(After(env, ops[..i]), ops[i])
  }

  ghost predicate SinceExpect(ops: seq<Op>, i: nat) {
    i < |ops| && forall k | i <= k < |ops| :: !ops[k].Expect?
  }

  ghost function AllFailed(env: Env, ops: seq<Op>): set<nat> {
    set i: nat | i < |ops| && FailedAt(env, ops, i)
  }

  ghost function FailedSince(env: Env, ops: seq<Op>): set<nat> {
    set i: nat | i < |ops| && SinceExpect(ops, i) && FailedAt(env, ops, i)
  }

  ghost function CheckedSince(env: Env, ops: seq<Op>): set<nat> {
    set i: nat | i < |ops| && SinceExpect(ops, i) && CheckedAt(env, ops, i)
  }

  ghost function StaleSince(ops: seq<Op>): set<nat> {
    set i: nat | i < |ops| && SinceExpect(ops, i) && ops[i].Manifest? && ops[i].stale
  }

  function AddIf(s: set<nat>, n: nat, b: bool): set<nat> {
    if b then s + {n} else s
  }

  lemma AddIfSize(s: set<nat>, n: nat, b: bool)
    requires forall i | i in s :: i < n
    ensures |AddIf(s, n, b)| == |s| + if b then 1 else 0
  {
  }

  lemma SnocSets(env: Env, before: seq<Op>, op: Op)
    requires Legal(env, before)
    ensures var ops, n := before + [op], |before|;
      var failed, checked := FailedAt(env, ops, n), CheckedAt(env, ops, n);
      && AllFailed(env, ops) == AddIf(AllFailed(env, before), n, failed)
      && FailedSince(env, ops) == (if op.Expect? then {} else AddIf(FailedSince(env, before), n, failed))
      && CheckedSince(env, ops) == (if op.Expect? then {} else AddIf(CheckedSince(env, before), n, checked))
  {
    var ops, n := before + [op], |before|;
    assert ops[..n] == before && ops[n] == op;
    forall i: nat | i < n
      ensures FailedAt(env, ops, i) <==> FailedAt(env, before, i)
      ensures CheckedAt(env, ops, i) <==> CheckedAt(env, before, i)
      ensures SinceExpect(ops, i) <==> SinceExpect(before, i) && !op.Expect?
    {
      assert ops[..i] == before[..i] && ops[i] == before[i];
      assert forall k | i <= k < n :: ops[k] == before[k];
    }
    assert SinceExpect(ops, n) <==> !op.Expect?;
  }

  lemma LastLedger(env: Env, ops: seq<Op>) returns (before: seq<Op>, op: Op)
    requires Legal(env, ops) && ops != []
    ensures ops == before + [op] && |before| < |ops| && Legal(env, before)
    ensures var st, st', n := After(env, before), After(env, ops), |before|;
      && |st'.ledger| == |st.ledger| + (if FailedAt(env, ops, n) then 1 else 0)
      && (st.crashed ==> st'.crashed)
      && (!st.crashed ==>
            if op.Expect? then st'.failures == st'.checks == 0
            else st'.failures == st.failures + (if FailedAt(env, ops, n) then 1 else 0)
                 && st'.checks == st.checks + (if CheckedAt(env, ops, n) then 1 else 0))
  {
    before, op := ops[..|ops| - 1], ops[|ops| - 1];
    assert ops[..|before|] == before;
    StepLedger(env, After(env, before), op);
  }

  /**
    The failure list has one entry for every failed check and every stale manifest of the whole
    run, across all resets.
  */
  lemma {:induction false} LedgerExact(env: Env, ops: seq<Op>)
    requires Legal(env, ops)
    ensures |After(env, ops).ledger| == |AllFailed(env, ops)|
  {
    if ops != [] {
      var before, op := LastLedger(env, ops);
      LedgerExact(env, before);
      SnocSets(env, before, op);
      AddIfSize(AllFailed(env, before), |before|, FailedAt(env, ops, |before|));
    }
  }

  /** The two counters are exact for the current expectation. */
  lemma {:induction false} CountersExact(env: Env, ops: seq<Op>)
    requires Legal(env, ops) && !After(env, ops).crashed
    ensures After(env, ops).failures == |FailedSince(env, ops)|
    ensures After(env, ops).checks == |CheckedSince(env, ops)|
  {
    if ops != [] {
      var before, op := LastLedger(env, ops);
      CountersExact(env, before);
      SnocSets(env, before, op);
      AddIfSize(FailedSince(env, before), |before|, FailedAt(env, ops, |before|));
      AddIfSize(CheckedSince(env, before), |before|, CheckedAt(env, ops, |before|));
    }
  }

  /** Failures never exceed checks since the last `expect`, stale manifests apart. */
  lemma FailuresWithinChecks(env: Env, ops: seq<Op>)
    requires Legal(env, ops) && !After(env, ops).crashed
    ensures After(env, ops).failures <= After(env, ops).checks + |StaleSince(ops)|
  {
    CountersExact(env, ops);
    var failed, checked, stale := FailedSince(env, ops), CheckedSince(env, ops), StaleSince(ops);
    forall i | i in failed ensures i in checked + stale {
      var f :| Fails(env, After(env, ops[..i]), ops[i], f);
    }
    SubsetSize(failed, checked + stale);
    assert |checked + stale| <= |checked| + |stale|;
  }

  lemma {:induction false} SubsetSize(a: set<nat>, b: set<nat>)
    requires a <= b
    ensures |a| <= |b|
  {
    if x :| x in a {
      SubsetSize(a - {x}, b - {x});
    }
  }

  /** A stale manifest is recorded at a moment when no check is left to account for it. */
  predicate Overtakes(st: Chain, op: Op) {
    !st.crashed && op.Manifest? && op.stale && st.failures == st.checks
  }

  lemma StepWithinChecks(env: Env, st: Chain, op: Op)
    requires Enabled(st, op) && st.failures <= st.checks
    ensures Step(env, st, op).failures <= Step(env, st, op).checks <==> !Overtakes(st, op)
  {
    StepLedger(env, st, op);
    if op.Dot? && VerbOf(op.name).Some? && st.attr.Some? && !st.crashed {
      PresentIffAllFound(st.files, st.attr.value);
    }
  }

  ghost predicate WithinAt(env: Env, ops: seq<Op>, i: nat) {
    i <= |ops| && Legal(env, ops[..i]) && After(env, ops[..i]).failures <= After(env, ops[..i]).checks
  }

  predicate OvertakenAt(env: Env, ops: seq<Op>, i: nat) {
    i < |ops| && Legal(env, ops[..i]) && Overtakes(After(env, ops[..i]), ops[i])
  }

  /**
    Exactly when failures stay within checks all along a run: iff no stale manifest comes while the
    two counters are equal.
  */
  lemma {:induction false} AlwaysWithinIff(env: Env, ops: seq<Op>)
    requires Legal(env, ops)
    ensures (forall i: nat | i <= |ops| :: WithinAt(env, ops, i)) <==> forall i: nat :: !OvertakenAt(env, ops, i)
  {
    if ops == [] {
      assert ops[..0] == [];
      assert WithinAt(env, ops, 0);
    } else {
      var before, op, n := ops[..|ops| - 1], ops[|ops| - 1], |ops| - 1;
      AlwaysWithinIff(env, before);
      forall i: nat | i <= n
        ensures WithinAt(env, ops, i) <==> WithinAt(env, before, i)
        ensures i < n ==> (OvertakenAt(env, ops, i) <==> OvertakenAt(env, before, i))
      {
        assert ops[..i] == before[..i];
      }
      assert ops[..n] == before && before[..n] == before && ops[..|ops|] == ops;
      if WithinAt(env, before, n) {
        StepWithinChecks(env, After(env, before), op);
        assert WithinAt(env, ops, |ops|) <==> !OvertakenAt(env, ops, n);
      }
    }
  }

  /** A stale manifest before any check puts the failures ahead. */
  lemma StaleManifestOvertakes(env: Env) returns (ops: seq<Op>)
    ensures Legal(env, ops) && !After(env, ops).crashed
    ensures After(env, ops).failures == 1 && After(env, ops).checks == 0
  {
    ops := [Manifest(true, true)];
    assert ops[..0] == [] && Legal(env, []) && After(env, []) == Init();
    assert After(env, ops) == Step(env, Init(), ops[0]);
  }

  /** `_print_all_fails` at exit, or the status of an uncaught exception. */
  function ExitCode(st: Chain): nat {
    if st.ledger != [] || st.crashed then 1 else 0
  }

  /**
    The process exits 1 exactly when some check of the run failed, some manifest was stale, or some
    call raised; and 0 otherwise.
  */
  lemma VerdictExact(env: Env, ops: seq<Op>)
    requires Legal(env, ops)
    ensures ExitCode(After(env, ops)) == 1
      <==> (exists i: nat :: FailedAt(env, ops, i)) || (exists i: nat :: RaisedAt(env, ops, i))
    ensures ExitCode(After(env, ops)) <= 1
  {
    LedgerExact(env, ops);
    CrashedIff(env, ops);
    if i: nat :| FailedAt(env, ops, i) {
      assert i in AllFailed(env, ops);
    }
    if i :| i in AllFailed(env, ops) {
      assert FailedAt(env, ops, i);
    }
  }

  // ----- The code, updating the object's fields and the files' caches -----

  function InfosOf(fs: seq<FileInfo>): (infos: seq<Info>)
    ensures |infos| == |fs| && forall i | 0 <= i < |fs| :: infos[i] == fs[i].info
  {
    if fs == [] then [] else InfosOf(fs[..|fs| - 1]) + [fs[|fs| - 1].info]
  }

  lemma {:induction false} SelectStep(env: Env, infos: seq<Info>, globs: seq<string>, i: nat)
    requires i < |infos|
    ensures Select(env, infos[..i + 1], globs)
         == Select(env, infos[..i], globs) + (if env.selects(infos[i].relpath, globs) then [infos[i]] else [])
  {
    if i == 0 {
      assert infos[..1][1..] == [];
    } else {
      SelectStep(env, infos[1..], globs, i - 1);
      assert infos[..i + 1][1..] == infos[1..][..i] && infos[..i][1..] == infos[1..][..i - 1];
    }
  }

  class ChainObject {
    const env: Env
    const infos: seq<FileInfo>
    var logicalReverse: bool
    var files: seq<FileInfo>
    var checksCount: nat
    var failuresCount: nat
    var lastAttribute: Option<string>
    var keyName: Option<string>
    var allFailures: seq<Failure>
    var currentSuite: Option<bool>
    var pathGlob: Option<seq<string>>
    var raised: bool  // an exception is on its way to the top

    ghost predicate Valid()
      reads this, infos
    {
      && env.infos == InfosOf(infos)
      && (forall f | f in infos :: f.Valid())
      && (forall f | f in files :: f in infos)
    }

    ghost function Now(): Chain
      reads this
    {
      Chain(logicalReverse, InfosOf(files), checksCount, failuresCount, lastAttribute, keyName, allFailures,
            currentSuite, pathGlob, raised)
    }

    constructor (env: Env, infos: seq<FileInfo>)
      requires env.infos == InfosOf(infos) && forall f | f in infos :: f.Valid()
      ensures Valid() && Now() == Init() && this.env == env && this.infos == infos
    {
      this.env, this.infos := env, infos;
      logicalReverse, files, checksCount, failuresCount := false, [], 0, 0;
      lastAttribute, keyName, allFailures, currentSuite, pathGlob := None, None, [], None, None;
      raised := false;
    }

    method PrintFail(f: Failure)
      modifies this`allFailures, this`failuresCount
      ensures allFailures == old(allFailures) + [f] && failuresCount == old(failuresCount) + 1
    {
      allFailures := allFailures + [f];
      failuresCount := failuresCount + 1;
    }

    method DoNot()
      requires Valid() && Enabled(Now(), Negate) && !raised
      modifies this`logicalReverse
      ensures Valid() && Now() == Step(env, old(Now()), Negate)
    {
      logicalReverse := true;
    }

    method SetKey(key: string)
      requires Valid() && Enabled(Now(), Key(key)) && !raised
      modifies this`keyName
      ensures Valid() && Now() == Step(env, old(Now()), Key(key))
    {
      keyName := Some(key);
    }

    /** Clears everything an expectation sets, except the key. */
    method Reset()
      modifies this`logicalReverse, this`files, this`checksCount, this`failuresCount, this`lastAttribute
      ensures !logicalReverse && files == [] && checksCount == failuresCount == 0 && lastAttribute == None
    {
      logicalReverse, files, checksCount, failuresCount, lastAttribute := false, [], 0, 0, None;
    }

    method SelectFiles(globs: seq<string>) returns (chosen: seq<FileInfo>)
      ensures InfosOf(chosen) == Select(env, InfosOf(infos), globs)
      ensures forall f | f in chosen :: f in infos
    {
      chosen := [];
      ghost var all := InfosOf(infos);
      for i := 0 to |infos|
        invariant InfosOf(chosen) == Select(env, all[..i], globs)
        invariant forall f | f in chosen :: f in infos
      {
        SelectStep(env, all, globs, i);
        if env.selects(infos[i].info.relpath, globs) {
          chosen := chosen + [infos[i]];
        }
      }
      assert all[..|infos|] == all;
    }

    method StartExpect(globs: seq<string>)
      requires Valid() && !raised
      modifies this
      ensures Valid() && Now() == Step(env, old(Now()), Expect(globs))
    {
      Reset();
      pathGlob := Some(globs);
      files := SelectFiles(globs);
    }

    method CheckExist()
      requires Valid() && Enabled(Now(), Exist) && !raised
      modifies this`checksCount, this`allFailures, this`failuresCount
      ensures Valid() && Now() == Step(env, old(Now()), Exist)
    {
      checksCount := checksCount + 1;
      var matchedFilesCount := |files|;
      if (matchedFilesCount > 0) == logicalReverse {
        PrintFail(WrongCount(pathGlob.value, matchedFilesCount));
      }
    }

    method CompareManifest(useRpath: bool, stale: bool)
      requires Valid() && !raised
      modifies this`currentSuite, this`allFailures, this`failuresCount
      ensures Valid() && Now() == Step(env, old(Now()), Manifest(useRpath, stale))
    {
      currentSuite := Some(useRpath);
      if stale {
        PrintFail(StaleManifest);
      }
    }

    method BeginSuite(useRpath: bool)
      requires Valid() && !raised
      modifies this`currentSuite
      ensures Valid() && Now() == Step(env, old(Now()), RunSuite(useRpath))
    {
      currentSuite := Some(useRpath);
    }

    /** One turn of the loop of `_compare`, with the attribute read twice and cached on the way. */
    method CheckFile(f: FileInfo, verb: Verb, attr: string, arg: Value) returns (m: Mark)
      requires f.Valid()
      modifies f
      ensures f.Valid() && m == MarkOf(env, Query(attr, keyName, logicalReverse, verb, arg), f.info)
    {
      var has := f.GetAttr(attr);
      if has.Absent? {
        return Missing;
      }
      var got := f.GetAttr(attr);
      if !got.Found? {
        return Broken;
      }
      var v := got.v;
      if keyName.Some? && keyName.value != "" && v.Dict? {
        if keyName.value !in v.entries {
          return NoKey;
        }
        v := v.entries[keyName.value];
      }
      var ok := Judge(env.rules, verb, arg, v);
      if ok.Breaks? {
        return Broken;
      }
      if ok.Holds? == logicalReverse {
        return Bad(v);
      }
      return Fine;
    }

    /** The loop of `_compare`: the failure or exception that ends it, if any. */
    method Scan(verb: Verb, attr: string, arg: Value) returns (o: Outcome)
      requires Valid()
      modifies infos
      ensures Valid()
      ensures o == Compare(env, Query(attr, keyName, logicalReverse, verb, arg), InfosOf(files))
    {
      ghost var q := Query(attr, keyName, logicalReverse, verb, arg);
      ghost var all := InfosOf(files);
      for i := 0 to |files|
        invariant Valid() && Compare(env, q, all) == Compare(env, q, all[i..])
      {
        var f := files[i];
        assert f in files;
        assert all[i..][0] == f.info && all[i..][1..] == all[i + 1..];
        var m := CheckFile(f, verb, attr, arg);
        match m {
          case Bad(v) => return Violated(WrongValue(f.info.relpath, attr, v));
          case NoKey => return Passed;
          case Broken => return Crashed;
          case _ =>
        }
      }
      return Passed;
    }

    method RecordOutcome(o: Outcome)
      requires !raised
      modifies this`allFailures, this`failuresCount, this`raised
      ensures Now() == Record(old(Now()), o)
    {
      match o {
        case Passed =>
        case Violated(f) => PrintFail(f);
        case Crashed => raised := true;
      }
    }

    method CompareFiles(verb: Verb, attr: string, arg: Value)
      requires Valid() && !raised && lastAttribute == Some(attr)
      modifies this`checksCount, this`allFailures, this`failuresCount, this`raised, infos
      ensures Valid()
      ensures var st := old(Now());
        Now() == Record(st.(checks := st.checks + 1), Compare(env, QueryAt(st, verb, arg), st.files))
    {
      checksCount := checksCount + 1;
      var o := Scan(verb, attr, arg);
      RecordOutcome(o);
    }

    /** The call of the method behind a verb's name. */
    method CallVerb(verb: Verb, attr: string, arg: Value)
      requires Valid() && !raised && lastAttribute == Some(attr)
      modifies this`checksCount, this`allFailures, this`failuresCount, this`raised, infos
      ensures Valid() && Now() == CarryOut(env, old(Now()), verb, arg)
    {
      if verb.DoesNot? {
        raised := true;
      } else {
        CompareFiles(verb, attr, arg);
      }
    }

    /** The presence test that comes before a verb is called. */
    method CheckPresent(attr: string) returns (p: Presence)
      requires Valid()
      modifies infos
      ensures Valid() && p == Present(InfosOf(files), attr)
    {
      ghost var all := InfosOf(files);
      for i := 0 to |files|
        invariant Valid() && Present(all, attr) == Present(all[i..], attr)
      {
        var f := files[i];
        assert f in files;
        assert all[i..][0] == f.info && all[i..][1..] == all[i + 1..];
        var has := f.GetAttr(attr);
        if has.Raised? {
          return LookupRaises;
        }
        if has.Absent? {
          return SomeAbsent;
        }
      }
      return AllPresent;
    }

    method RunVerb(verb: Verb, arg: Value)
      requires Valid() && !raised
      modifies this`checksCount, this`allFailures, this`failuresCount, this`raised, infos
      ensures Valid() && Now() == Perform(env, old(Now()), verb, arg)
    {
      if lastAttribute.None? {
        return;
      }
      ghost var st := Now();
      var presence := CheckPresent(lastAttribute.value);
      assert Now() == st && presence == Present(st.files, st.attr.value);
      match presence {
        case AllPresent =>
          CallVerb(verb, lastAttribute.value, arg);
          assert Now() == CarryOut(env, st, verb, arg);
        case SomeAbsent =>
        case LookupRaises =>
          raised := true;
          assert Now() == st.(crashed := true);
      }
    }

    /** A name that is no verb: the attribute to look at, under the suite's name for it. */
    method LookAt(name: string)
      requires !raised
      modifies this`lastAttribute, this`logicalReverse, this`keyName, this`raised
      ensures Now() == SetAttribute(old(Now()), name)
    {
      if currentSuite.None? {
        raised := true;
      } else {
        lastAttribute := Some(if currentSuite.value && name == "runpath" then "rpath"
                              else if !currentSuite.value && name == "rpath" then "runpath"
                              else name);
        logicalReverse := false;
        keyName := None;
      }
    }

    /** `__getattr__`: an attribute to look at, or a verb and its call. */
    method Access(name: string, arg: Value)
      requires Valid() && Enabled(Now(), Dot(name, arg)) && !raised
      modifies this, infos
      ensures Valid() && Now() == Step(env, old(Now()), Dot(name, arg))
    {
      var verb := VerbOf(name);
      if verb.Some? {
        RunVerb(verb.value, arg);
      } else {
        LookAt(name);
      }
    }
  }
}
