/** Facts about sequences that are used throughout. */
module Seqs {

  lemma TakeOneMore<T>(s: seq<T>, n: nat)
    requires n < |s|
    ensures s[..n + 1] == s[..n] + [s[n]]
  {
  }

  lemma InTakeOneMore<T>(s: seq<T>, n: nat, x: T)
    requires n < |s|
    ensures x in s[..n + 1] <==> x in s[..n] || x == s[n]
  {
    TakeOneMore(s, n);
  }

  lemma AppendAssociates<T>(a: seq<T>, b: seq<T>, c: seq<T>)
    ensures a + b + c == a + (b + c)
  {
  }

  function Omitting<T>(s: seq<T>, i: nat): seq<T>
    requires i < |s|
  {
    s[..i] + s[i + 1..]
  }

  lemma MultisetOmitting<T>(s: seq<T>, i: nat)
    requires i < |s|
    ensures multiset(Omitting(s, i)) == multiset(s) - multiset{s[i]}
  {
    assert s == s[..i] + [s[i]] + s[i + 1..];
  }

  lemma PlaceOf<T>(s: seq<T>, x: T) returns (i: nat)
    requires x in multiset(s)
    ensures i < |s| && s[i] == x
  {
    i :| 0 <= i < |s| && s[i] == x;
  }

  /** Two places of one order have two different places in the other. */
  lemma TwoPlaces<T>(s: seq<T>, t: seq<T>, m: nat, n: nat) returns (i: nat, j: nat)
    requires multiset(s) == multiset(t) && m < n < |t|
    ensures i < |s| && j < |s| && i != j && s[i] == t[m] && s[j] == t[n]
  {
    assert t[m] in multiset(t);
    i := PlaceOf(s, t[m]);
    MultisetOmitting(s, i);
    MultisetOmitting(t, m);
    assert Omitting(t, m)[n - 1] == t[n];
    assert t[n] in multiset(Omitting(t, m));
    j := PlaceOf(Omitting(s, i), t[n]);
    j := if j < i then j else j + 1;
  }
}
