/** The verbs of scripts/explain_manifest/expect.py: what each says about one attribute value. */
module Verbs {
  import opened Wrappers
  import opened Attributes
  import opened Sorting

  datatype Verb = Equal | Match | Contain | ContainMatch | LessThan | GreaterThan | DoesNot

  predicate EndsWith(s: string, t: string) {
    |t| <= |s| && s[|s| - |t|..] == t
  }

  /** The part of a name that the verb pattern captures: a final "s" or "es" is optional. */
  function Stem(name: string): (r: string)
    ensures |r| <= |name| && r + name[|r|..] == name && name[|r|..] in {"", "s", "es"}
    ensures forall n | 0 <= n < |r| :: name[n..] !in {"", "s", "es"}
  {
    if EndsWith(name, "es") then name[..|name| - 2]
    else if EndsWith(name, "s") then name[..|name| - 1]
    else name
  }

  function VerbOf(name: string): Option<Verb> {
    match Stem(name)
    case "does_not" => Some(DoesNot)
    case "equal" => Some(Equal)
    case "match" => Some(Match)
    case "contain" => Some(Contain)
    case "contain_match" => Some(ContainMatch)
    case "less_than" => Some(LessThan)
    case "greater_than" => Some(GreaterThan)
    case _ => None
  }

  /** A name calls a verb if it is the verb itself, or its third person. */
  predicate Calls(name: string, verb: string) {
    name == verb || name == verb + "s" || name == verb + "es"
  }

  lemma StemOf(verb: string, name: string)
    requires verb != "" && verb[|verb| - 1] != 's' && verb[|verb| - 1] != 'e'
    ensures Stem(name) == verb <==> Calls(name, verb)
  {
    if Calls(name, verb) {
      assert name != verb ==> name[|name| - 1] == 's';
      assert name == verb + "s" ==> name[|name| - 2] == verb[|verb| - 1];
      assert EndsWith(name, "es") ==> name[|name| - 2..][0] == name[|name| - 2] && name[|name| - 2..][1] == 's';
      assert EndsWith(name, "s") ==> name[|name| - 1..][0] == name[|name| - 1];
      assert name == verb + "es" ==> name[|name| - 2..] == "es" && name[..|name| - 2] == verb;
      assert name == verb + "s" ==> name[|name| - 1..] == "s" && name[..|name| - 1] == verb;
    } else {
      assert name[|Stem(name)|..] in {"", "s", "es"};
      assert Stem(name) + name[|Stem(name)|..] == name;
    }
  }

  /** The names of the verbs. */
  lemma VerbNames(name: string)
    ensures VerbOf(name) == Some(DoesNot) <==> Calls(name, "does_not")
    ensures VerbOf(name) == Some(Equal) <==> Calls(name, "equal")
    ensures VerbOf(name) == Some(Match) <==> Calls(name, "match")
    ensures VerbOf(name) == Some(Contain) <==> Calls(name, "contain")
    ensures VerbOf(name) == Some(ContainMatch) <==> Calls(name, "contain_match")
    ensures VerbOf(name) == Some(LessThan) <==> Calls(name, "less_than")
    ensures VerbOf(name) == Some(GreaterThan) <==> Calls(name, "greater_than")
  {
    StemOf("does_not", name);
    StemOf("equal", name);
    StemOf("match", name);
    StemOf("contain", name);
    StemOf("contain_match", name);
    StemOf("less_than", name);
    StemOf("greater_than", name);
  }

  /** Regular-expression search and the order of version strings, as parameters. */
  datatype Rules = Rules(search: (string, string) -> bool, less: (string, string) -> bool)

  datatype Verdict = Holds | Fails | Breaks  // Breaks: the predicate raises

  function Told(b: bool): Verdict {
    if b then Holds else Fails
  }

  // ----- The predicates -----

  function AsNumber(v: Value): Value {
    if v.Flag? then Int(if v.b then 1 else 0) else v
  }

  /** `a < b` for single values: numbers with numbers, strings with strings, anything else raises. */
  function Below(a: Value, b: Value): Verdict {
    match (AsNumber(a), AsNumber(b))
    case (Int(m), Int(n)) => Told(m < n)
    case (Text(x), Text(y)) => Told(Before(x, y))
    case _ => Breaks
  }

  predicate IsList(v: Value) {
    v.List? || v.Versions?
  }

  /** Strings compare by code point, versions, also with a string, as versions do. */
  function OrderOf(t: Rules, v: Value): (string, string) -> bool
    requires IsList(v)
  {
    if v.Versions? then t.less else Before
  }

  /** An item of the list equals the string. */
  predicate Contains(t: Rules, v: Value, s: string)
    requires IsList(v)
  {
    if v.List? then s in v.items else exists x | x in v.items :: !t.less(x, s) && !t.less(s, x)
  }

  predicate SearchAll(t: Rules, pattern: string, items: seq<string>) {
    items != [] && (t.search(pattern, items[0]) || SearchAll(t, pattern, items[1..]))
  }

  function Judge(t: Rules, verb: Verb, arg: Value, v: Value): Verdict {
    match verb
    case Equal => Told(AsNumber(v) == AsNumber(arg))
    case Match => if v.Text? && arg.Text? then Told(t.search(arg.s, v.s)) else Breaks
    case LessThan =>
      if !IsList(v) then Below(v, arg)
      else if v.items == [] || !arg.Text? then Breaks
      else Told(OrderOf(t, v)(Sort(v.items, OrderOf(t, v))[|v.items| - 1], arg.s))
    case GreaterThan =>
      if !IsList(v) then Below(arg, v)
      else if v.items == [] || !arg.Text? then Breaks
      else Told(OrderOf(t, v)(arg.s, Sort(v.items, OrderOf(t, v))[0]))
    case Contain =>
      if !IsList(v) || v.items == [] then Fails
      else if arg.Text? && Contains(t, v, arg.s) then Holds
      else if v.List? && (arg.Text? || arg.List?) then Fails
      else Breaks  // looking for a close match raises
    case ContainMatch =>
      if !IsList(v) || v.items == [] then Fails
      else if arg.Text? && v.List? then Told(SearchAll(t, arg.s, v.items))
      else Breaks
    case DoesNot => Breaks
  }

  /** A verb cannot tell True from 1 or False from 0. */
  lemma JudgeByNumber(t: Rules, verb: Verb, arg: Value, v: Value, w: Value)
    requires AsNumber(v) == AsNumber(w)
    ensures Judge(t, verb, arg, v) == Judge(t, verb, arg, w)
  {
    if v.Flag? || w.Flag? {
      assert !IsList(v) && !IsList(w) && !v.Text? && !w.Text?;
    }
  }

  lemma {:induction false} SearchAllFinds(t: Rules, pattern: string, items: seq<string>)
    ensures SearchAll(t, pattern, items) <==> exists x :: x in items && t.search(pattern, x)
  {
    if items != [] {
      SearchAllFinds(t, pattern, items[1..]);
      assert forall x :: x in items <==> x == items[0] || x in items[1..];
    }
  }

  /** `less_than` on a list: the last of the sorted list is below iff every item is. */
  lemma LessThanMeansAll(t: Rules, bound: string, v: Value)
    requires IsList(v) && v.items != [] && (v.Versions? ==> WeakOrder(t.less))
    ensures Judge(t, LessThan, Text(bound), v) == Told(forall x | x in v.items :: OrderOf(t, v)(x, bound))
  {
    BeforeIsWeakOrder();
    LastBelowIff(v.items, OrderOf(t, v), bound);
  }

  /**
    `greater_than` on a list tests its least item, so it holds iff every item is above the bound.
    Its negation therefore holds iff some item is at most the bound, not iff all are.
  */
  lemma GreaterThanMeansAll(t: Rules, bound: string, v: Value)
    requires IsList(v) && v.items != [] && (v.Versions? ==> WeakOrder(t.less))
    ensures Judge(t, GreaterThan, Text(bound), v) == Told(forall x | x in v.items :: OrderOf(t, v)(bound, x))
    ensures Judge(t, GreaterThan, Text(bound), v) == Fails
        <==> exists x :: x in v.items && !OrderOf(t, v)(bound, x)
  {
    BeforeIsWeakOrder();
    FirstAboveIff(v.items, OrderOf(t, v), bound);
  }

  // ----- Verdicts -----

  /** Booleans are numbers. */
  predicate IsNumber(v: Value) {
    v.Int? || v.Flag?
  }

  function NumberOf(v: Value): int
    requires IsNumber(v)
  {
    if v.Int? then v.n else if v.b then 1 else 0
  }

  /** `a < b` for items of one list, or of a list and a string. */
  ghost predicate Less(t: Rules, list: Value, a: string, b: string) {
    if list.Versions? then t.less(a, b) else Earlier(a, b)
  }

  /** When a verb holds of a value. */
  ghost predicate HoldsOf(t: Rules, verb: Verb, arg: Value, v: Value) {
    match verb
    case Equal => v == arg || (IsNumber(v) && IsNumber(arg) && NumberOf(v) == NumberOf(arg))
    case Match => v.Text? && arg.Text? && t.search(arg.s, v.s)
    case LessThan =>
      || (IsNumber(v) && IsNumber(arg) && NumberOf(v) < NumberOf(arg))
      || (v.Text? && arg.Text? && Earlier(v.s, arg.s))
      || (IsList(v) && arg.Text? && v.items != [] && forall x | x in v.items :: Less(t, v, x, arg.s))
    case GreaterThan =>
      || (IsNumber(v) && IsNumber(arg) && NumberOf(v) > NumberOf(arg))
      || (v.Text? && arg.Text? && Earlier(arg.s, v.s))
      || (IsList(v) && arg.Text? && v.items != [] && forall x | x in v.items :: Less(t, v, arg.s, x))
    case Contain =>
      || (v.List? && arg.Text? && arg.s in v.items)
      || (v.Versions? && arg.Text? && exists x :: x in v.items && !t.less(x, arg.s) && !t.less(arg.s, x))
    case ContainMatch => v.List? && arg.Text? && exists x :: x in v.items && t.search(arg.s, x)
    case DoesNot => false
  }

  /** When it raises. */
  predicate RaisesOn(t: Rules, verb: Verb, arg: Value, v: Value) {
    match verb
    case Equal => false
    case Match => !v.Text? || !arg.Text?
    case LessThan =>
      !(IsNumber(v) && IsNumber(arg)) && !(v.Text? && arg.Text?) && !(IsList(v) && v.items != [] && arg.Text?)
    case GreaterThan =>
      !(IsNumber(v) && IsNumber(arg)) && !(v.Text? && arg.Text?) && !(IsList(v) && v.items != [] && arg.Text?)
    case Contain =>
      IsList(v) && v.items != [] &&
      if v.List? then !arg.Text? && !arg.List?
      else !arg.Text? || forall x | x in v.items :: t.less(x, arg.s) || t.less(arg.s, x)
    case ContainMatch => IsList(v) && v.items != [] && (v.Versions? || !arg.Text?)
    case DoesNot => true
  }

  lemma LessIsOrder(t: Rules, v: Value, a: string, b: string)
    requires IsList(v)
    ensures OrderOf(t, v)(a, b) <==> Less(t, v, a, b)
  {
    BeforeIff(a, b);
  }

  lemma ListVerdicts(t: Rules, arg: Value, v: Value)
    requires IsList(v) && v.items != [] && arg.Text? && (v.Versions? ==> WeakOrder(t.less))
    ensures Judge(t, LessThan, arg, v) == Told(forall x | x in v.items :: Less(t, v, x, arg.s))
    ensures Judge(t, GreaterThan, arg, v) == Told(forall x | x in v.items :: Less(t, v, arg.s, x))
  {
    LessThanMeansAll(t, arg.s, v);
    GreaterThanMeansAll(t, arg.s, v);
    forall x | x in v.items
      ensures OrderOf(t, v)(x, arg.s) <==> Less(t, v, x, arg.s)
      ensures OrderOf(t, v)(arg.s, x) <==> Less(t, v, arg.s, x)
    {
      LessIsOrder(t, v, x, arg.s);
      LessIsOrder(t, v, arg.s, x);
    }
  }

  lemma CompareExactly(t: Rules, verb: Verb, arg: Value, v: Value)
    requires (verb == LessThan || verb == GreaterThan) && (v.Versions? ==> WeakOrder(t.less))
    ensures Judge(t, verb, arg, v) == Breaks <==> RaisesOn(t, verb, arg, v)
    ensures Judge(t, verb, arg, v) == Holds <==> HoldsOf(t, verb, arg, v)
  {
    if IsList(v) {
      if v.items != [] && arg.Text? {
        ListVerdicts(t, arg, v);
      }
    } else if v.Text? && arg.Text? {
      BeforeIff(v.s, arg.s);
      BeforeIff(arg.s, v.s);
    }
  }

  lemma ContainExactly(t: Rules, verb: Verb, arg: Value, v: Value)
    requires verb == Contain || verb == ContainMatch
    ensures Judge(t, verb, arg, v) == Breaks <==> RaisesOn(t, verb, arg, v)
    ensures Judge(t, verb, arg, v) == Holds <==> HoldsOf(t, verb, arg, v)
  {
    if v.List? && arg.Text? {
      SearchAllFinds(t, arg.s, v.items);
    }
  }

  lemma EqualExactly(t: Rules, arg: Value, v: Value)
    ensures Judge(t, Equal, arg, v) == Holds <==> HoldsOf(t, Equal, arg, v)
    ensures !Judge(t, Equal, arg, v).Breaks?
  {
  }

  /** Every verb on every value: it raises, holds or fails exactly as said. */
  lemma JudgeExactly(t: Rules, verb: Verb, arg: Value, v: Value)
    requires v.Versions? ==> WeakOrder(t.less)
    ensures Judge(t, verb, arg, v) == Breaks <==> RaisesOn(t, verb, arg, v)
    ensures Judge(t, verb, arg, v) == Holds <==> HoldsOf(t, verb, arg, v)
  {
    match verb {
      case LessThan => CompareExactly(t, verb, arg, v);
      case GreaterThan => CompareExactly(t, verb, arg, v);
      case Contain => ContainExactly(t, verb, arg, v);
      case ContainMatch => ContainExactly(t, verb, arg, v);
      case Equal => EqualExactly(t, arg, v);
      case _ =>
    }
  }
}
