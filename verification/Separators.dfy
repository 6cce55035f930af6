/** Joining texts with a separator, and taking them apart again. */
module Separators {
  import opened Wrappers
  import Seqs

  function Join(sep: string, parts: seq<string>): string {
    if parts == [] then ""
    else if |parts| == 1 then parts[0]
    else parts[0] + sep + Join(sep, parts[1..])
  }

  predicate At(s: string, sep: string, i: nat) {
    i + |sep| <= |s| && s[i..i + |sep|] == sep
  }

  predicate Has(s: string, sep: string) {
    exists i: nat | i <= |s| :: At(s, sep, i)
  }

  /** The first place of a separator. */
  function Find(s: string, sep: string): (r: Option<nat>)
    ensures r.None? ==> !Has(s, sep)
    ensures r.Some? ==> At(s, sep, r.value) && forall i: nat | i < r.value :: !At(s, sep, i)
  {
    if At(s, sep, 0) then Some(0)
    else if s == "" then None
    else
      ShiftAt(s, sep);
      match Find(s[1..], sep)
      case None => None
      case Some(i) => Some(i + 1)
  }

  lemma ShiftAt(s: string, sep: string)
    requires s != ""
    ensures forall i: nat | 0 < i :: At(s, sep, i) <==> At(s[1..], sep, i - 1)
  {
    forall i: nat | 0 < i ensures At(s, sep, i) <==> At(s[1..], sep, i - 1) {
      if i + |sep| <= |s| {
        SameSlice(s, i, |sep|);
      }
    }
  }

  lemma SameSlice(s: string, i: nat, n: nat)
    requires 0 < i && i + n <= |s|
    ensures s[i..i + n] == s[1..][i - 1..i - 1 + n]
  {
    var a, b := s[i..i + n], s[1..][i - 1..i - 1 + n];
    forall k | 0 <= k < n ensures a[k] == b[k] {
      assert a[k] == s[i + k] && b[k] == s[1..][i - 1 + k];
    }
  }

  function Split(s: string, sep: string): seq<string>
    requires sep != ""
    decreases |s|
  {
    match Find(s, sep)
    case None => [s]
    case Some(i) => [s[..i]] + Split(s[i + |sep|..], sep)
  }

  /** A separator that cannot begin inside another one. */
  predicate Separator(sep: string) {
    |sep| == 1 || (|sep| == 2 && sep[0] != sep[1])
  }

  lemma HasChar(s: string, c: char)
    ensures Has(s, [c]) <==> c in s
  {
    if i: nat :| i <= |s| && At(s, [c], i) {
      assert s[i..i + 1][0] == c;
    }
    if c in s {
      var i: nat :| i < |s| && s[i] == c;
      assert At(s, [c], i);
    }
  }

  lemma PrefixAt(s: string, sep: string, i: nat, j: nat)
    requires i <= |s| && sep != "" && At(s[..i], sep, j)
    ensures j < i && At(s, sep, j)
  {
    assert s[..i][j..j + |sep|] == s[j..j + |sep|];
  }

  lemma PrefixHas(s: string, sep: string, i: nat)
    requires i <= |s| && sep != "" && forall j: nat | j < i :: !At(s, sep, j)
    ensures !Has(s[..i], sep)
  {
    if j: nat :| j <= |s[..i]| && At(s[..i], sep, j) {
      PrefixAt(s, sep, i, j);
    }
  }

  lemma EndsBefore(part: string, sep: string, rest: string, i: nat)
    requires Separator(sep) && At(part + sep + rest, sep, i) && i < |part|
    ensures i + |sep| <= |part| && At(part, sep, i)
  {
    var s := part + sep + rest;
    assert s[i..i + |sep|][|sep| - 1] == s[i + |sep| - 1];
    assert s[|part|] == sep[0];
    assert i + |sep| <= |part|;
    assert part[i..i + |sep|] == s[i..i + |sep|];
  }

  /** The first separator after a part without one is the one that follows it. */
  lemma FindAfter(part: string, sep: string, rest: string)
    requires Separator(sep) && !Has(part, sep)
    ensures Find(part + sep + rest, sep) == Some(|part|)
  {
    var s := part + sep + rest;
    assert s[|part|..|part| + |sep|] == sep;
    assert At(s, sep, |part|);
    forall i: nat | i < |part| ensures !At(s, sep, i) {
      if At(s, sep, i) {
        EndsBefore(part, sep, rest, i);
      }
    }
  }

  lemma {:induction false} SplitHas(s: string, sep: string)
    requires sep != ""
    ensures Split(s, sep) != [] && forall p | p in Split(s, sep) :: !Has(p, sep)
    decreases |s|
  {
    match Find(s, sep) {
      case None =>
      case Some(i) =>
        var rest := s[i + |sep|..];
        PrefixHas(s, sep, i);
        SplitHas(rest, sep);
        forall p | p in Split(s, sep) ensures !Has(p, sep) {
          assert p == s[..i] || p in Split(rest, sep);
        }
    }
  }

  lemma {:induction false} SplitJoin(sep: string, parts: seq<string>)
    requires Separator(sep) && parts != [] && forall p | p in parts :: !Has(p, sep)
    ensures Split(Join(sep, parts), sep) == parts
    decreases |parts|
  {
    assert parts[0] in parts;
    if |parts| == 1 {
      assert Find(parts[0], sep).None?;
    } else {
      var rest := Join(sep, parts[1..]);
      FindAfter(parts[0], sep, rest);
      Seqs.DropPrefix(parts[0] + sep, rest);
      Seqs.Assoc(parts[0], sep, rest);
      Seqs.DropPrefix(parts[0], sep + rest);
      SplitJoin(sep, parts[1..]);
      Seqs.HeadTail(parts);
    }
  }

  /** Exactly which lists are recovered from their joined text. */
  lemma SplitJoinIff(sep: string, parts: seq<string>)
    requires Separator(sep)
    ensures Split(Join(sep, parts), sep) == parts <==> parts != [] && forall p | p in parts :: !Has(p, sep)
  {
    SplitHas(Join(sep, parts), sep);
    if parts != [] && forall p | p in parts :: !Has(p, sep) {
      SplitJoin(sep, parts);
    }
  }

  /** What comes before the first separator, and what comes after it. */
  function Cut(s: string, sep: string): Option<(string, string)> {
    match Find(s, sep)
    case None => None
    case Some(i) => Some((s[..i], s[i + |sep|..]))
  }

  /** Exactly which pairs are recovered. */
  lemma CutIff(a: string, sep: string, b: string)
    requires Separator(sep)
    ensures Cut(a + sep + b, sep) == Some((a, b)) <==> !Has(a, sep)
  {
    var s := a + sep + b;
    if !Has(a, sep) {
      FindAfter(a, sep, b);
      Seqs.DropPrefix(a + sep, b);
      Seqs.Assoc(a, sep, b);
      Seqs.DropPrefix(a, sep + b);
    }
    if Cut(s, sep).Some? {
      CutHas(s, sep);
    }
  }

  lemma CutHas(s: string, sep: string)
    requires sep != "" && Cut(s, sep).Some?
    ensures !Has(Cut(s, sep).value.0, sep) && Cut(s, sep).value.0 + sep + Cut(s, sep).value.1 == s
  {
    var i := Find(s, sep).value;
    PrefixHas(s, sep, i);
    assert s[..i] + s[i..i + |sep|] + s[i + |sep|..] == s;
  }
}
