/**
  The canonical signing string of kong/plugins/api-version/sdk/decrypt.py. HMAC, JSON and the clock
  are parameters; the string is what both sides must agree on.
*/
module Signing {
  import opened Wrappers
  import opened Percent
  import opened Separators
  import opened Sorting
  import Seqs

  /** A dictionary in insertion order; the values are already texts, or None. */
  type Params = seq<(string, Option<string>)>
  type Pairs = seq<(string, string)>

  predicate DistinctKeys<V>(ps: seq<(string, V)>) {
    forall i, j | 0 <= i < j < |ps| :: ps[i].0 != ps[j].0
  }

  function DropNone(ps: Params): Pairs {
    if ps == [] then []
    else (if ps[0].1.Some? then [(ps[0].0, ps[0].1.value)] else []) + DropNone(ps[1..])
  }

  predicate ByKey(a: (string, string), b: (string, string)) {
    Before(a.0, b.0)
  }

  function UrlEncode(ps: Pairs): string {
    if ps == [] then ""
    else QuotePlus(ps[0].0) + "=" + QuotePlus(ps[0].1) + (if |ps| == 1 then "" else "&" + UrlEncode(ps[1..]))
  }

  /** `params_sort_str` */
  function ParamsSortStr(ps: Params): string {
    UnquotePlus(UrlEncode(Sort(DropNone(ps), ByKey)))
  }

  // ----- Quoting cancels -----

  /** key=value pairs joined with "&", nothing quoted. */
  function Plain(ps: Pairs): string {
    if ps == [] then ""
    else ps[0].0 + "=" + ps[0].1 + (if |ps| == 1 then "" else "&" + Plain(ps[1..]))
  }

  lemma {:induction false} UnquoteEncoded(ps: Pairs)
    ensures UnquoteToBytes(PlusToSpace(UrlEncode(ps))) == Utf8(Plain(ps))
  {
    if ps != [] {
      var k, v := ps[0].0, ps[0].1;
      var tail := if |ps| == 1 then "" else "&" + UrlEncode(ps[1..]);
      var plainTail := if |ps| == 1 then "" else "&" + Plain(ps[1..]);
      assert UnquoteToBytes(PlusToSpace(tail)) == Utf8(plainTail) by {
        if |ps| > 1 {
          UnquoteEncoded(ps[1..]);
          UnquoteSeparator('&', UrlEncode(ps[1..]));
          assert ("&" + Plain(ps[1..]))[1..] == Plain(ps[1..]);
        }
      }
      UnquotePair(k, v, tail, plainTail);
    }
  }

  lemma UnquotePair(k: string, v: string, tail: string, plainTail: string)
    requires UnquoteToBytes(PlusToSpace(tail)) == Utf8(plainTail)
    ensures UnquoteToBytes(PlusToSpace(QuotePlus(k) + "=" + QuotePlus(v) + tail)) == Utf8(k + "=" + v + plainTail)
  {
    Seqs.Assoc4(QuotePlus(k), "=", QuotePlus(v), tail);
    UnquoteQuoted(k, "=" + (QuotePlus(v) + tail));
    UnquoteSeparator('=', QuotePlus(v) + tail);
    UnquoteQuoted(v, tail);
    Utf8Pair(k, v, plainTail);
  }

  lemma Utf8Pair(k: string, v: string, more: string)
    ensures Utf8(k + "=" + v + more) == Utf8(k) + (Utf8Char('=') + (Utf8(v) + Utf8(more)))
  {
    Seqs.Assoc4(k, "=", v, more);
    Utf8Append(k, "=" + (v + more));
    assert ("=" + (v + more))[1..] == v + more;
    Utf8Append(v, more);
  }

  /** The result is the plain text of the pairs in key order: encoding and decoding cancel throughout. */
  lemma SortStrIsPlain(ps: Params)
    ensures ParamsSortStr(ps) == Plain(Sort(DropNone(ps), ByKey))
  {
    UnquoteEncoded(Sort(DropNone(ps), ByKey));
    FromUtf8Utf8(Plain(Sort(DropNone(ps), ByKey)));
  }

  // ----- Insertion order does not matter -----

  ghost function Kept(ps: Params): set<(string, string)> {
    set p | p in ps && p.1.Some? :: (p.0, p.1.value)
  }

  lemma {:induction false} DropNoneKeeps(ps: Params)
    ensures forall p :: p in DropNone(ps) <==> p in Kept(ps)
  {
    if ps != [] {
      DropNoneKeeps(ps[1..]);
      assert forall p :: p in ps <==> p == ps[0] || p in ps[1..];
      assert forall p :: p in DropNone(ps) <==>
        (ps[0].1.Some? && p == (ps[0].0, ps[0].1.value)) || p in DropNone(ps[1..]);
    }
  }

  lemma {:induction false} DropNoneDistinct(ps: Params)
    requires DistinctKeys(ps)
    ensures DistinctKeys(DropNone(ps))
  {
    if ps != [] {
      DropNoneDistinct(ps[1..]);
      DropNoneKeeps(ps[1..]);
      forall p | p in DropNone(ps[1..]) ensures p.0 != ps[0].0 {
        assert p in Kept(ps[1..]);
        var q :| q in ps[1..] && q.1.Some? && (q.0, q.1.value) == p;
        var j :| 0 <= j < |ps[1..]| && ps[1..][j] == q;
        assert ps[j + 1] == q;
      }
    }
  }

  /** Strictly ascending keys. */
  ghost predicate Ordered(ps: Pairs) {
    forall i, j | 0 <= i < j < |ps| :: Before(ps[i].0, ps[j].0)
  }

  lemma ByKeyIsWeakOrder()
    ensures WeakOrder(ByKey)
  {
    BeforeIsWeakOrder();
    forall x: (string, string) ensures !ByKey(x, x) {
      assert !Before(x.0, x.0);
    }
    forall x: (string, string), y: (string, string), z: (string, string) | !ByKey(x, y) && !ByKey(y, z)
      ensures !ByKey(x, z)
    {
      assert !Before(x.0, y.0) && !Before(y.0, z.0);
    }
  }

  lemma DistinctByMultiset(a: Pairs, b: Pairs)
    requires DistinctKeys(a) && multiset(a) == multiset(b)
    ensures DistinctKeys(b)
  {
    forall i, j | 0 <= i < j < |b| ensures b[i].0 != b[j].0 {
      assert b[i] in multiset(b) && b[j] in multiset(b);
      assert b[i] in a && b[j] in a;
      if b[i] == b[j] {
        TwiceInMultiset(b, i, j);
        OnceInMultiset(a, b[i]);
      }
    }
  }

  lemma TwiceInMultiset(b: Pairs, i: nat, j: nat)
    requires i < j < |b| && b[i] == b[j]
    ensures multiset(b)[b[i]] >= 2
  {
    assert b == b[..j] + [b[j]] + b[j + 1..];
    assert b[..j][i] == b[i];
  }

  lemma {:induction false} OnceInMultiset(a: Pairs, p: (string, string))
    requires DistinctKeys(a) && p in a
    ensures multiset(a)[p] == 1
  {
    assert a == [a[0]] + a[1..];
    if p != a[0] {
      OnceInMultiset(a[1..], p);
    } else {
      assert forall i | 0 <= i < |a[1..]| :: a[1..][i] == a[i + 1];
      assert p !in a[1..];
    }
  }

  lemma SortOrders(ps: Pairs)
    requires DistinctKeys(ps)
    ensures Ordered(Sort(ps, ByKey)) && forall p :: p in Sort(ps, ByKey) <==> p in ps
  {
    ByKeyIsWeakOrder();
    SortSorts(ps, ByKey);
    var sorted := Sort(ps, ByKey);
    DistinctByMultiset(ps, sorted);
    forall i, j | 0 <= i < j < |sorted| ensures Before(sorted[i].0, sorted[j].0) {
      assert !ByKey(sorted[j], sorted[i]);
      BeforeTrichotomy(sorted[i].0, sorted[j].0);
    }
    forall p ensures p in sorted <==> p in ps {
      assert p in sorted <==> p in multiset(sorted);
      assert p in ps <==> p in multiset(ps);
    }
  }

  lemma {:induction false} OrderedUnique(a: Pairs, b: Pairs)
    requires Ordered(a) && Ordered(b) && (forall p :: p in a <==> p in b)
    ensures a == b
    decreases |a|
  {
    assert b != [] ==> b[0] in b;
    if a != [] {
      assert a[0] in b && b != [] && b[0] in a;
      FirstIsFirst(a, b[0]);
      FirstIsFirst(b, a[0]);
      BeforeTrichotomy(a[0].0, b[0].0);
      assert a[0] == b[0];
      forall p ensures p in a[1..] <==> p in b[1..] {
        RestWithoutFirst(a, p);
        RestWithoutFirst(b, p);
      }
      OrderedUnique(a[1..], b[1..]);
      assert a == [a[0]] + a[1..] && b == [b[0]] + b[1..];
    }
  }

  lemma FirstIsFirst(a: Pairs, p: (string, string))
    requires Ordered(a) && p in a
    ensures p == a[0] || Before(a[0].0, p.0)
  {
    var i :| 0 <= i < |a| && a[i] == p;
  }

  lemma RestWithoutFirst(a: Pairs, p: (string, string))
    requires Ordered(a) && a != []
    ensures p in a[1..] <==> p in a && p != a[0]
  {
    if p in a[1..] {
      var i :| 0 <= i < |a[1..]| && a[1..][i] == p;
      assert a[i + 1] == p;
      BeforeTrichotomy(a[0].0, p.0);
    }
  }

  /** The result depends only on the map with its None entries dropped. */
  lemma OrderIrrelevant(ps: Params, qs: Params)
    requires DistinctKeys(ps) && DistinctKeys(qs) && Kept(ps) == Kept(qs)
    ensures ParamsSortStr(ps) == ParamsSortStr(qs)
  {
    var a, b := DropNone(ps), DropNone(qs);
    DropNoneDistinct(ps);
    DropNoneDistinct(qs);
    DropNoneKeeps(ps);
    DropNoneKeeps(qs);
    SortOrders(a);
    SortOrders(b);
    OrderedUnique(Sort(a, ByKey), Sort(b, ByKey));
  }

  /**
    What `params_sort_str` gives, said without sorting: take the one list that holds exactly the
    parameters with a value and whose keys ascend by code point, and join it.
  */
  lemma SortStrAscends(ps: Params)
    requires DistinctKeys(ps)
    ensures var sorted := Sort(DropNone(ps), ByKey);
      && (forall p :: p in sorted <==> (p.0, Some(p.1)) in ps)
      && (forall i, j | 0 <= i < j < |sorted| :: Earlier(sorted[i].0, sorted[j].0))
      && ParamsSortStr(ps) == Plain(sorted)
    ensures forall list: Pairs | (forall p :: p in list <==> (p.0, Some(p.1)) in ps)
                                 && (forall i, j | 0 <= i < j < |list| :: Earlier(list[i].0, list[j].0)) ::
      ParamsSortStr(ps) == Plain(list)
  {
    var sorted := Sort(DropNone(ps), ByKey);
    SortStrIsPlain(ps);
    SortedGiven(ps);
    forall i, j | 0 <= i < j < |sorted| ensures Earlier(sorted[i].0, sorted[j].0) {
      BeforeIff(sorted[i].0, sorted[j].0);
    }
    forall list: Pairs | (forall p :: p in list <==> (p.0, Some(p.1)) in ps)
                         && forall i, j | 0 <= i < j < |list| :: Earlier(list[i].0, list[j].0)
      ensures list == sorted
    {
      forall i, j | 0 <= i < j < |list| ensures Before(list[i].0, list[j].0) {
        BeforeIff(list[i].0, list[j].0);
      }
      OrderedUnique(list, sorted);
    }
  }

  lemma SortedGiven(ps: Params)
    requires DistinctKeys(ps)
    ensures Ordered(Sort(DropNone(ps), ByKey))
    ensures forall p :: p in Sort(DropNone(ps), ByKey) <==> (p.0, Some(p.1)) in ps
  {
    DropNoneDistinct(ps);
    DropNoneKeeps(ps);
    SortOrders(DropNone(ps));
    forall p ensures p in Kept(ps) <==> (p.0, Some(p.1)) in ps {
      if (p.0, Some(p.1)) in ps {
        assert (p.0, p.1) == p;
      }
    }
  }

  // ----- What the text tells -----

  function Piece(p: (string, string)): string {
    p.0 + "=" + p.1
  }

  function Pieces(ps: Pairs): (r: seq<string>)
    ensures |r| == |ps| && forall i | 0 <= i < |ps| :: r[i] == Piece(ps[i])
  {
    if ps == [] then [] else [Piece(ps[0])] + Pieces(ps[1..])
  }

  lemma {:induction false} PlainIsJoin(ps: Pairs)
    ensures Plain(ps) == Join("&", Pieces(ps))
  {
    if |ps| == 1 {
      assert Piece(ps[0]) + "" == Piece(ps[0]);
    } else if ps != [] {
      PlainIsJoin(ps[1..]);
      assert Pieces(ps)[1..] == Pieces(ps[1..]);
      Seqs.Assoc(Piece(ps[0]), "&", Plain(ps[1..]));
    }
  }

  function CutAll(pieces: seq<string>): Option<Pairs> {
    if pieces == [] then Some([])
    else
      match (Cut(pieces[0], "="), CutAll(pieces[1..]))
      case (Some(p), Some(rest)) => Some([p] + rest)
      case _ => None
  }

  /** The obvious reader: pieces between "&", each cut at its first "=". */
  function Read(text: string): Option<Pairs> {
    if text == "" then Some([]) else CutAll(Split(text, "&"))
  }

  /** No key holds a separator, and no value an "&". */
  predicate Readable(p: (string, string)) {
    '=' !in p.0 && '&' !in p.0 && '&' !in p.1
  }

  predicate SeparablePairs(ps: Pairs) {
    forall p | p in ps :: Readable(p)
  }

  ghost predicate Separable(ps: Params) {
    forall p | p in Kept(ps) :: Readable(p)
  }

  lemma PieceHas(p: (string, string))
    ensures !Has(Piece(p), "&") <==> '&' !in p.0 && '&' !in p.1
    ensures Cut(Piece(p), "=") == Some(p) <==> '=' !in p.0
  {
    HasChar(Piece(p), '&');
    assert '&' in Piece(p) <==> '&' in p.0 || '&' in p.1;
    HasChar(p.0, '=');
    CutIff(p.0, "=", p.1);
  }

  lemma {:induction false} CutAllIff(ps: Pairs)
    ensures CutAll(Pieces(ps)) == Some(ps) <==> forall p | p in ps :: '=' !in p.0
  {
    if ps != [] {
      CutAllIff(ps[1..]);
      PieceHas(ps[0]);
      Seqs.HeadTail(ps);
      assert Pieces(ps)[1..] == Pieces(ps[1..]);
      assert forall p :: p in ps <==> p == ps[0] || p in ps[1..];
    }
  }

  lemma {:induction false} CutAllPieces(pieces: seq<string>)
    requires CutAll(pieces).Some?
    ensures Pieces(CutAll(pieces).value) == pieces
  {
    if pieces != [] {
      CutAllPieces(pieces[1..]);
      CutHas(pieces[0], "=");
      var p, rest := Cut(pieces[0], "=").value, CutAll(pieces[1..]).value;
      assert ([p] + rest)[1..] == rest;
      Seqs.HeadTail(pieces);
    }
  }

  lemma PiecesHave(ps: Pairs)
    ensures (forall s | s in Pieces(ps) :: !Has(s, "&")) <==> forall p | p in ps :: '&' !in p.0 && '&' !in p.1
  {
    forall i | 0 <= i < |ps| ensures !Has(Pieces(ps)[i], "&") <==> '&' !in ps[i].0 && '&' !in ps[i].1 {
      PieceHas(ps[i]);
    }
  }

  lemma PlainNotEmpty(ps: Pairs)
    requires ps != []
    ensures '=' in Plain(ps) && Plain(ps) != ""
  {
    assert Plain(ps)[|ps[0].0|] == '=';
  }

  /** Exactly which pairs are read back. */
  lemma ReadPlainIff(ps: Pairs)
    ensures Read(Plain(ps)) == Some(ps) <==> SeparablePairs(ps)
  {
    if ps != [] {
      PlainNotEmpty(ps);
      PlainIsJoin(ps);
      SplitJoinIff("&", Pieces(ps));
      CutAllIff(ps);
      PiecesHave(ps);
      if CutAll(Split(Plain(ps), "&")) == Some(ps) {
        CutAllPieces(Split(Plain(ps), "&"));
      }
    }
  }

  /** Exactly which parameters are read back from their text. */
  lemma ReadSortStrIff(ps: Params)
    requires DistinctKeys(ps)
    ensures Read(ParamsSortStr(ps)) == Some(Sort(DropNone(ps), ByKey)) <==> Separable(ps)
  {
    SortStrIsPlain(ps);
    ReadPlainIff(Sort(DropNone(ps), ByKey));
    SortedIsKept(ps);
  }

  lemma SortedIsKept(ps: Params)
    requires DistinctKeys(ps)
    ensures forall p :: p in Sort(DropNone(ps), ByKey) <==> p in Kept(ps)
  {
    DropNoneDistinct(ps);
    DropNoneKeeps(ps);
    SortOrders(DropNone(ps));
  }

  /** Over such parameters equal texts mean equal maps, None entries dropped. */
  lemma SortStrTellsMap(ps: Params, qs: Params)
    requires DistinctKeys(ps) && DistinctKeys(qs) && Separable(ps) && Separable(qs)
    ensures ParamsSortStr(ps) == ParamsSortStr(qs) <==> Kept(ps) == Kept(qs)
  {
    if ParamsSortStr(ps) == ParamsSortStr(qs) {
      ReadSortStrIff(ps);
      ReadSortStrIff(qs);
      SortedIsKept(ps);
      SortedIsKept(qs);
    } else if Kept(ps) == Kept(qs) {
      OrderIrrelevant(ps, qs);
    }
  }

  /** A value that goes on with another pair's text gives the same text as the two pairs. */
  lemma SeparatorInValueCollides(k: string, v: string, l: string, w: string)
    requires Before(k, l)
    ensures ParamsSortStr([(k, Some(v + "&" + l + "=" + w))]) == ParamsSortStr([(k, Some(v)), (l, Some(w))])
  {
    var one: Params, two: Params := [(k, Some(v + "&" + l + "=" + w))], [(k, Some(v)), (l, Some(w))];
    SortStrIsPlain(one);
    SortStrIsPlain(two);
    DropNoneOne(k, v + "&" + l + "=" + w);
    DropNoneOne(k, v);
    DropNoneOne(l, w);
    DropNoneAppend([(k, Some(v))], [(l, Some(w))]);
    assert two == [(k, Some(v))] + [(l, Some(w))];
    assert DropNone(two) == [(k, v), (l, w)];
    SortedOne((k, v + "&" + l + "=" + w));
    SortedTwo((k, v), (l, w));
    PlainAlike(k, v, l, w);
  }

  lemma PlainAlike(k: string, v: string, l: string, w: string)
    ensures Plain([(k, v + "&" + l + "=" + w)]) == Plain([(k, v), (l, w)])
  {
    PlainCons((k, v + "&" + l + "=" + w), []);
    PlainCons((k, v), [(l, w)]);
    PlainCons((l, w), []);
    assert [(k, v), (l, w)] == [(k, v)] + [(l, w)];
    assert [(l, w)] + [] == [(l, w)] && [(k, v + "&" + l + "=" + w)] + [] == [(k, v + "&" + l + "=" + w)];
    JoinedAlike(k + "=", v, l, w);
  }

  lemma JoinedAlike(k: string, v: string, l: string, w: string)
    ensures k + (v + "&" + l + "=" + w) + "" == k + v + ("&" + (l + "=" + w + ""))
  {
  }

  lemma SortedOne(p: (string, string))
    ensures Sort([p], ByKey) == [p]
  {
    assert [p][1..] == [] && [p] + [] == [p];
  }

  predicate EqualsAt(text: string, i: nat) {
    i < |text| && text[i] == '='
  }

  /** At most one parameter, with no "=" in it. */
  predicate Lone(ps: Pairs) {
    ps == [] || (|ps| == 1 && '=' !in ps[0].0 && '=' !in ps[0].1)
  }

  /** Any "=" of a text can end the only key. */
  function OnlyPair(text: string, i: nat): Params
    requires EqualsAt(text, i)
  {
    [(text[..i], Some(text[i + 1..]))]
  }

  lemma OnlyPairText(text: string, i: nat)
    requires EqualsAt(text, i)
    ensures ParamsSortStr(OnlyPair(text, i)) == text
    ensures Kept(OnlyPair(text, i)) == {(text[..i], text[i + 1..])}
  {
    var k, v := text[..i], text[i + 1..];
    SortStrIsPlain(OnlyPair(text, i));
    DropNoneOne(k, v);
    DropNoneKeeps(OnlyPair(text, i));
    SortedOne((k, v));
    PlainCons((k, v), []);
    assert [(k, v)] + [] == [(k, v)] && k + "=" + v + "" == text;
  }

  lemma FirstEquals(ps: Pairs)
    requires ps != []
    ensures EqualsAt(Plain(ps), |ps[0].0|)
    ensures |ps| > 1 ==> '=' in Plain(ps)[|ps[0].0| + 1..]
    ensures |ps| == 1 ==> Plain(ps) == ps[0].0 + "=" + ps[0].1
  {
    var k, v := ps[0].0, ps[0].1;
    if |ps| > 1 {
      PlainNotEmpty(ps[1..]);
      assert Plain(ps) == k + "=" + v + ("&" + Plain(ps[1..]));
      assert Plain(ps)[|k| + 1..] == v + ("&" + Plain(ps[1..]));
    } else {
      assert k + "=" + v + "" == k + "=" + v;
    }
  }

  lemma OnlyEquals(k: string, v: string)
    requires '=' !in k && '=' !in v
    ensures forall i: nat | EqualsAt(k + "=" + v, i) :: i == |k|
  {
    var text := k + "=" + v;
    assert forall i: nat | i < |k| :: text[i] == k[i];
    assert forall i: nat | |k| < i < |text| :: text[i] == v[i - |k| - 1];
  }

  /** A text has two "=" iff its parameters are more than a lone one. */
  lemma TwoEqualsIff(ps: Pairs)
    ensures (exists i: nat, j: nat :: i < j && EqualsAt(Plain(ps), i) && EqualsAt(Plain(ps), j)) <==> !Lone(ps)
  {
    if ps != [] {
      FirstEquals(ps);
      var text, n := Plain(ps), |ps[0].0|;
      if |ps| > 1 {
        var j: nat :| j < |text[n + 1..]| && text[n + 1..][j] == '=';
        assert EqualsAt(text, n + 1 + j);
      } else if i: nat :| i < n && ps[0].0[i] == '=' {
        assert EqualsAt(text, i);
      } else if j: nat :| j < |ps[0].1| && ps[0].1[j] == '=' {
        assert EqualsAt(text, n + 1 + j);
      } else {
        OnlyEquals(ps[0].0, ps[0].1);
      }
    }
  }

  lemma LoneText(a: Pairs, b: Pairs)
    requires Lone(a) && Lone(b) && Plain(a) == Plain(b)
    ensures a == b
  {
    if a != [] {
      PlainNotEmpty(a);
      FirstEquals(a);
    }
    if b != [] {
      PlainNotEmpty(b);
      FirstEquals(b);
    }
    if a != [] && b != [] {
      HasChar(a[0].0, '=');
      HasChar(b[0].0, '=');
      CutIff(a[0].0, "=", a[0].1);
      CutIff(b[0].0, "=", b[0].1);
      assert a == [a[0]] && b == [b[0]];
    }
  }

  /**
    Exactly which parameters their text determines among all others: none, or a single one without
    "=" in its key and value. With two "=" the text can be cut at either.
  */
  lemma TextTellsMapIff(ps: Params)
    requires DistinctKeys(ps)
    ensures (forall qs: Params | DistinctKeys(qs) && ParamsSortStr(qs) == ParamsSortStr(ps) :: Kept(qs) == Kept(ps))
      <==> Lone(Sort(DropNone(ps), ByKey))
  {
    var sorted, text := Sort(DropNone(ps), ByKey), ParamsSortStr(ps);
    SortStrIsPlain(ps);
    SortedIsKept(ps);
    TwoEqualsIff(sorted);
    if Lone(sorted) {
      forall qs: Params | DistinctKeys(qs) && ParamsSortStr(qs) == text ensures Kept(qs) == Kept(ps) {
        SortStrIsPlain(qs);
        SortedIsKept(qs);
        TwoEqualsIff(Sort(DropNone(qs), ByKey));
        LoneText(Sort(DropNone(qs), ByKey), sorted);
      }
    } else {
      var i: nat, j: nat :| i < j && EqualsAt(text, i) && EqualsAt(text, j);
      OnlyPairText(text, i);
      OnlyPairText(text, j);
      assert |text[..i]| != |text[..j]|;
      assert (text[..i], text[i + 1..]) in Kept(OnlyPair(text, i));
      assert Kept(OnlyPair(text, i)) != Kept(OnlyPair(text, j));
    }
  }

  // ----- prepare_params -----

  /** The payload object, in the caller's hands or copied. */
  class Dict {
    var items: Params

    constructor (items: Params)
      ensures this.items == items
    {
      this.items := items;
    }

    method DeepCopy() returns (d: Dict)
      ensures fresh(d) && d.items == items
    {
      d := new Dict(items);
    }
  }

  datatype Field = Text(s: string) | Object(d: Dict)
  type Fields = seq<(string, Field)>

  /** Assigning a key keeps its place if it is there, and appends it otherwise. */
  function Put<V>(ps: seq<(string, V)>, k: string, v: V): seq<(string, V)> {
    if ps == [] then [(k, v)]
    else if ps[0].0 == k then [(k, v)] + ps[1..]
    else [ps[0]] + Put(ps[1..], k, v)
  }

  /** The text that is signed. */
  function SignedText(appid: string, timestamp: string, payload: Option<Params>): string {
    var rest := "&timestamp=" + timestamp;
    "appid=" + appid + if payload.Some? then "&payload=" + ParamsSortStr(payload.value) + rest else rest
  }

  function SignedParams(appid: string, timestamp: string, payload: Option<Params>): Params {
    [("appid", Some(appid)), ("timestamp", Some(timestamp))]
    + (if payload.Some? then [("payload", Some(ParamsSortStr(payload.value)))] else [])
  }

  lemma KeysInOrder()
    ensures Before("appid", "payload") && Before("payload", "timestamp") && Before("appid", "timestamp")
  {
    assert "appid"[0] == 'a' && "payload"[0] == 'p' && "timestamp"[0] == 't';
  }

  lemma SortedTwo(a: (string, string), b: (string, string))
    requires Before(a.0, b.0)
    ensures Sort([a, b], ByKey) == [a, b]
  {
    BeforeTrichotomy(a.0, b.0);
    assert [a, b][1..] == [b] && [b][1..] == [];
    assert Sort([b], ByKey) == [b] + [];
    assert Insert(a, [b], ByKey) == [a] + [b];
  }

  lemma SortedThree(a: (string, string), b: (string, string), c: (string, string))
    requires Before(a.0, c.0) && Before(c.0, b.0)
    ensures Sort([a, b, c], ByKey) == [a, c, b]
  {
    BeforeTrichotomy(a.0, c.0);
    assert [a, b, c][1..] == [b, c] && [b, c][1..] == [c] && [c][1..] == [];
    assert Sort([c], ByKey) == [c] + [];
    assert Insert(b, [c], ByKey) == [c] + Insert(b, [], ByKey) == [c, b] by {
      assert [c][1..] == [];
    }
    assert Insert(a, [c, b], ByKey) == [a] + [c, b];
  }

  lemma PlainCons(p: (string, string), ps: Pairs)
    ensures Plain([p] + ps) == p.0 + "=" + p.1 + if ps == [] then "" else "&" + Plain(ps)
  {
    assert ([p] + ps)[1..] == ps;
  }

  lemma Ampersand(k: string, v: string, more: string)
    ensures "&" + (k + "=" + v + more) == "&" + k + "=" + v + more
  {
  }

  lemma PlainOfFields(appid: string, timestamp: string, payload: Option<Params>)
    ensures payload.None? ==>
      Plain([("appid", appid), ("timestamp", timestamp)]) == SignedText(appid, timestamp, payload)
    ensures payload.Some? ==>
      Plain([("appid", appid), ("payload", ParamsSortStr(payload.value)), ("timestamp", timestamp)])
      == SignedText(appid, timestamp, payload)
  {
    var a, t := ("appid", appid), ("timestamp", timestamp);
    assert "&" + "timestamp" + "=" == "&timestamp=" && "appid" + "=" == "appid=" && "&" + "payload" + "=" == "&payload=";
    PlainCons(t, []);
    Ampersand("timestamp", timestamp, "");
    var rest := "&timestamp=" + timestamp;
    assert [t] + [] == [t] && rest + "" == rest;
    assert "&" + Plain([t]) == rest;
    if payload.Some? {
      var p := ("payload", ParamsSortStr(payload.value));
      PlainCons(p, [t]);
      Ampersand("payload", p.1, rest);
      PlainCons(a, [p] + [t]);
      assert [a] + ([p] + [t]) == [a, p, t];
    } else {
      PlainCons(a, [t]);
      assert [a] + [t] == [a, t];
    }
  }

  lemma {:induction false} DropNoneAppend(a: Params, b: Params)
    ensures DropNone(a + b) == DropNone(a) + DropNone(b)
  {
    if a == [] {
      Seqs.AppendEmpty(b);
      Seqs.AppendEmpty(DropNone(b));
    } else {
      DropNoneAppend(a[1..], b);
      Seqs.AppendTail(a, b);
      Seqs.Assoc(if a[0].1.Some? then [(a[0].0, a[0].1.value)] else [], DropNone(a[1..]), DropNone(b));
    }
  }

  lemma DropNoneOne(k: string, v: string)
    ensures DropNone([(k, Some(v))]) == [(k, v)]
  {
    assert [(k, Some(v))][1..] == [];
  }

  lemma SignedParamsKept(appid: string, timestamp: string, payload: Option<Params>)
    ensures DropNone(SignedParams(appid, timestamp, payload)) ==
      [("appid", appid), ("timestamp", timestamp)]
      + if payload.Some? then [("payload", ParamsSortStr(payload.value))] else []
  {
    var a: Params, t: Params := [("appid", Some(appid))], [("timestamp", Some(timestamp))];
    DropNoneOne("appid", appid);
    DropNoneOne("timestamp", timestamp);
    DropNoneAppend(a, t);
    assert [("appid", Some(appid)), ("timestamp", Some(timestamp))] == a + t;
    if payload.Some? {
      DropNoneOne("payload", ParamsSortStr(payload.value));
      DropNoneAppend(a + t, [("payload", Some(ParamsSortStr(payload.value)))]);
    }
  }

  /** Sorting the parameters and cancelling the quoting gives the signed text. */
  lemma SignedTextIsSortStr(appid: string, timestamp: string, payload: Option<Params>)
    ensures ParamsSortStr(SignedParams(appid, timestamp, payload)) == SignedText(appid, timestamp, payload)
  {
    SortStrIsPlain(SignedParams(appid, timestamp, payload));
    SignedParamsKept(appid, timestamp, payload);
    PlainOfFields(appid, timestamp, payload);
    KeysInOrder();
    var a, t := ("appid", appid), ("timestamp", timestamp);
    if payload.Some? {
      SortedThree(a, t, ("payload", ParamsSortStr(payload.value)));
      assert [a, t] + [("payload", ParamsSortStr(payload.value))] == [a, t, ("payload", ParamsSortStr(payload.value))];
    } else {
      SortedTwo(a, t);
      assert [a, t] + [] == [a, t];
    }
  }

  /** The values as texts, the payload object as its sorted text. */
  function Texts(fields: Fields): Params
    reads set f | f in fields && f.1.Object? :: f.1.d
  {
    if fields == [] then []
    else
      [(fields[0].0, Some(match fields[0].1
                          case Text(s) => s
                          case Object(d) => ParamsSortStr(d.items)))] + Texts(fields[1..])
  }

  function WithoutSign(fields: Fields): Fields {
    if fields == [] then []
    else (if fields[0].0 == "sign" then [] else [fields[0]]) + WithoutSign(fields[1..])
  }

  lemma {:induction false} PutNew<V>(ps: seq<(string, V)>, k: string, v: V)
    requires forall i | 0 <= i < |ps| :: ps[i].0 != k
    ensures Put(ps, k, v) == ps + [(k, v)]
  {
    if ps != [] {
      PutNew(ps[1..], k, v);
      assert ps == [ps[0]] + ps[1..];
    }
  }

  lemma PutThird<V>(a: (string, V), b: (string, V), c: (string, V), d: (string, V), v: V)
    requires a.0 != c.0 && b.0 != c.0
    ensures Put([a, b, c, d], c.0, v) == [a, b, (c.0, v), d]
  {
    assert [a, b, c, d][1..] == [b, c, d] && [b, c, d][1..] == [c, d] && [c, d][1..] == [d];
    assert Put([c, d], c.0, v) == [(c.0, v)] + [d];
    assert Put([b, c, d], c.0, v) == [b] + Put([c, d], c.0, v);
  }

  lemma TextsCons(a: (string, Field), fields: Fields)
    ensures Texts([a]) == [(a.0, Texts([a])[0].1)]
    ensures Texts([a] + fields) == Texts([a]) + Texts(fields)
  {
    Seqs.AppendTail([a], fields);
    assert [a][1..] == [];
    Seqs.AppendEmpty(fields);
    Seqs.AppendEmpty(Texts([a]));
  }

  lemma TextsOfThree(a: (string, Field), b: (string, Field), c: (string, Field))
    ensures Texts([a, b]) == Texts([a]) + Texts([b])
    ensures Texts([a, b, c]) == Texts([a]) + Texts([b]) + Texts([c])
  {
    TextsCons(c, []);
    TextsCons(b, []);
    TextsCons(a, []);
    TextsCons(b, [c]);
    TextsCons(a, [b]);
    TextsCons(a, [b, c]);
    Seqs.Assoc(Texts([a]), Texts([b]), Texts([c]));
  }

  lemma {:induction false} WithoutSignLast(fields: Fields, sign: (string, Field))
    requires sign.0 == "sign" && forall f | f in fields :: f.0 != "sign"
    ensures WithoutSign(fields + [sign]) == fields
  {
    if fields == [] {
      Seqs.AppendEmpty([sign]);
      assert [sign][1..] == [];
    } else {
      assert fields[0] in fields;
      WithoutSignLast(fields[1..], sign);
      Seqs.AppendTail(fields, [sign]);
      Seqs.HeadTail(fields);
    }
  }

  lemma FieldNamesDiffer()
    ensures "appid" != "timestamp" && "appid" != "payload" && "appid" != "sign" && "timestamp" != "payload"
    ensures "timestamp" != "sign" && "payload" != "sign"
  {
    assert |"appid"| == 5 && |"timestamp"| == 9 && |"payload"| == 7 && |"sign"| == 4;
  }

  /** What is sent: the payload is the object itself again. */
  function Sent(appid: string, timestamp: string, payload: Option<Dict>, signature: string): Fields {
    [("appid", Text(appid)), ("timestamp", Text(timestamp))]
    + (if payload.Some? then [("payload", Object(payload.value))] else [])
    + [("sign", Text(signature))]
  }

  function ItemsOf(payload: Option<Dict>): Option<Params>
    reads if payload.Some? then {payload.value} else {}
  {
    if payload.Some? then Some(payload.value.items) else None
  }

  /** Recomputing from what is sent gives exactly what was signed. */
  lemma RecomputeSent(appid: string, timestamp: string, payload: Option<Dict>, signature: string)
    ensures ParamsSortStr(Texts(WithoutSign(Sent(appid, timestamp, payload, signature))))
         == SignedText(appid, timestamp, ItemsOf(payload))
  {
    FieldNamesDiffer();
    var a, t, s := ("appid", Text(appid)), ("timestamp", Text(timestamp)), ("sign", Text(signature));
    var fields := Sent(appid, timestamp, payload, signature);
    var p := if payload.Some? then ("payload", Object(payload.value)) else a;
    var kept := if payload.Some? then [a, t, p] else [a, t];
    assert fields == kept + [s];
    WithoutSignLast(kept, s);
    TextsOfThree(a, t, p);
    assert Texts(kept) == SignedParams(appid, timestamp, ItemsOf(payload));
    SignedTextIsSortStr(appid, timestamp, ItemsOf(payload));
  }

  /** The fields when they are signed: the payload is its sorted text. */
  function Unsigned(appid: string, timestamp: string, payload: Option<Params>): Fields {
    [("appid", Text(appid)), ("timestamp", Text(timestamp))]
    + if payload.Some? then [("payload", Text(ParamsSortStr(payload.value)))] else []
  }

  lemma UnsignedTexts(appid: string, timestamp: string, payload: Option<Params>)
    ensures Texts(Unsigned(appid, timestamp, payload)) == SignedParams(appid, timestamp, payload)
  {
    var a, t := ("appid", Text(appid)), ("timestamp", Text(timestamp));
    if payload.Some? {
      var p := ("payload", Text(ParamsSortStr(payload.value)));
      assert Unsigned(appid, timestamp, payload) == [a, t, p];
      TextsOfThree(a, t, p);
    } else {
      assert Unsigned(appid, timestamp, payload) == [a, t];
      TextsOfThree(a, t, t);
    }
  }

  method AddSign(fields: Fields, apikey: string, appid: string, timestamp: string, ghost payload: Option<Params>,
                 mac: (string, string) -> string)
      returns (signed: Fields)
    requires fields == Unsigned(appid, timestamp, payload)
    ensures signed == fields + [("sign", Text(mac(apikey, SignedText(appid, timestamp, payload))))]
  {
    var paramsStr := ParamsSortStr(Texts(fields));
    UnsignedTexts(appid, timestamp, payload);
    SignedTextIsSortStr(appid, timestamp, payload);
    FieldNamesDiffer();
    PutNew(fields, "sign", Text(mac(apikey, paramsStr)));
    signed := Put(fields, "sign", Text(mac(apikey, paramsStr)));
  }

  method BaseFields(appid: string, timestamp: string) returns (params: Fields)
    ensures params == Unsigned(appid, timestamp, None)
  {
    FieldNamesDiffer();
    params := Put([], "appid", Text(appid));
    PutNew(params, "timestamp", Text(timestamp));
    params := Put(params, "timestamp", Text(timestamp));
  }

  method PayloadFields(copy: Dict, appid: string, apikey: string, timestamp: string, mac: (string, string) -> string)
      returns (params: Fields)
    ensures params == Sent(appid, timestamp, Some(copy), mac(apikey, SignedText(appid, timestamp, Some(copy.items))))
  {
    FieldNamesDiffer();
    var sorted := ParamsSortStr(copy.items);
    params := BaseFields(appid, timestamp);
    PutNew(params, "payload", Text(sorted));
    params := Put(params, "payload", Text(sorted));
    params := AddSign(params, apikey, appid, timestamp, Some(copy.items), mac);
    PutThird(params[0], params[1], params[2], params[3], Object(copy));
    assert params == [params[0], params[1], params[2], params[3]];
    params := Put(params, "payload", Object(copy));
  }

  /** `payload` null stands for None; `mac` signs a text with a key. The caller's payload is copied first. */
  method PrepareParams(payload: Dict?, appid: string, apikey: string, timestamp: string,
                       mac: (string, string) -> string)
      returns (params: Fields, ghost copied: Option<Dict>)
    ensures payload == null ==> copied == None
    ensures payload != null ==> copied.Some? && fresh(copied.value) && copied.value.items == payload.items
    ensures params == Sent(appid, timestamp, copied, mac(apikey, SignedText(appid, timestamp, ItemsOf(copied))))
  {
    if payload == null {
      copied := None;
      params := BaseFields(appid, timestamp);
      params := AddSign(params, apikey, appid, timestamp, None, mac);
    } else {
      var copy := payload.DeepCopy();
      copied := Some(copy);
      params := PayloadFields(copy, appid, apikey, timestamp, mac);
    }
  }
}
