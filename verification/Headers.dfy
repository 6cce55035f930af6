/**
  The host's header maps, as the proxy-wasm filters use them. Names are compared without case
  (section 5.1 of RFC 9110), so a map is keyed by lower-cased names; a name that is there has at
  least one value.
*/
module Headers {
  import opened Wrappers

  type Map = h: map<string, seq<string>> | forall n | n in h :: h[n] != []

  function LowerChar(c: char): char {
    if 'A' <= c <= 'Z' then c + 32 as char else c
  }

  function Lower(s: string): string {
    seq(|s|, i requires 0 <= i < |s| => LowerChar(s[i]))
  }

  /** All values of a lower-cased name; none means the header is absent. */
  function Values(h: Map, n: string): seq<string> {
    if n in h then h[n] else []
  }

  /** The host returns one value. */
  function Get(h: Map, name: string): Option<string> {
    if Lower(name) in h then Some(h[Lower(name)][0]) else None
  }

  /** Replaces all values of a name, or deletes them. */
  function Set(h: Map, name: string, value: Option<string>): Map {
    match value
    case None => h - {Lower(name)}
    case Some(v) => h[Lower(name) := [v]]
  }

  function Add(h: Map, name: string, value: string): Map {
    h[Lower(name) := Values(h, Lower(name)) + [value]]
  }

  /** The same character, or the capital and the small form of one letter. */
  predicate SameLetter(a: char, b: char) {
    a == b || ('A' <= a <= 'Z' && b as nat == a as nat + 32) || ('A' <= b <= 'Z' && a as nat == b as nat + 32)
  }

  /** Two names are one header exactly if they differ in nothing but the case of letters. */
  lemma SameNameIff(a: string, b: string)
    ensures Lower(a) == Lower(b) <==> |a| == |b| && forall i | 0 <= i < |a| :: SameLetter(a[i], b[i])
  {
    if |a| == |b| {
      forall i | 0 <= i < |a| ensures Lower(a)[i] == Lower(b)[i] <==> SameLetter(a[i], b[i]) {
        LowerCharIff(a[i], b[i]);
      }
    }
  }

  lemma LowerCharIff(a: char, b: char)
    ensures LowerChar(a) == LowerChar(b) <==> SameLetter(a, b)
  {
  }

  lemma SameValuesSameMap(a: Map, b: Map)
    requires forall n :: Values(a, n) == Values(b, n)
    ensures a == b
  {
    forall n ensures n in a <==> n in b {
      assert Values(a, n) == Values(b, n);
    }
    forall n | n in a ensures a[n] == b[n] {
      assert Values(a, n) == Values(b, n);
    }
  }
}
