/** Sequences of directory entry names: the prefix and suffix tests of java.lang.String,
    and the order-preserving filters used to list and delete entries. */
module Names {

  predicate StartsWith(s: string, prefix: string) {
    |prefix| <= |s| && s[..|prefix|] == prefix
  }

  predicate EndsWith(s: string, suffix: string) {
    |suffix| <= |s| && s[|s| - |suffix|..] == suffix
  }

  /** No name occurs twice (the entries of one directory). */
  predicate Distinct(s: seq<string>) {
    forall i, j :: 0 <= i < j < |s| ==> s[i] != s[j]
  }

  /** The elements of `s` that are not in `d`, in their original order. */
  function RemoveAll(s: seq<string>, d: set<string>): (r: seq<string>)
    ensures forall x :: x in r <==> x in s && x !in d
    ensures |r| <= |s|
    ensures Distinct(s) ==> Distinct(r)
  {
    if s == [] then []
    else if s[0] in d then RemoveAll(s[1..], d)
    else [s[0]] + RemoveAll(s[1..], d)
  }

  /** The elements of `s` that are in `d`, in their original order. */
  function Among(s: seq<string>, d: set<string>): (r: seq<string>)
    ensures forall x :: x in r <==> x in s && x in d
    ensures |r| <= |s|
  {
    if s == [] then []
    else if s[0] in d then [s[0]] + Among(s[1..], d)
    else Among(s[1..], d)
  }

  lemma {:induction false} RemoveAllConcat(a: seq<string>, b: seq<string>, d: set<string>)
    ensures RemoveAll(a + b, d) == RemoveAll(a, d) + RemoveAll(b, d)
  {
    if a != [] {
      var ab := a + b;
      assert ab[0] == a[0] && ab[1..] == a[1..] + b;
      RemoveAllConcat(a[1..], b, d);
      if a[0] in d {
        assert RemoveAll(ab, d) == RemoveAll(a[1..] + b, d);
      } else {
        assert RemoveAll(ab, d) == [a[0]] + RemoveAll(a[1..] + b, d);
      }
    } else {
      assert a + b == b;
    }
  }

  lemma {:induction false} AmongConcat(a: seq<string>, b: seq<string>, d: set<string>)
    ensures Among(a + b, d) == Among(a, d) + Among(b, d)
  {
    if a != [] {
      assert (a + b)[1..] == a[1..] + b;
      AmongConcat(a[1..], b, d);
    } else {
      assert a + b == b;
    }
  }

  /** Removing names that do not occur changes nothing. */
  lemma {:induction false} RemoveAllNone(s: seq<string>, d: set<string>)
    requires forall x :: x in s ==> x !in d
    ensures RemoveAll(s, d) == s
  {
    if s != [] {
      assert s[0] in s;
      assert forall x :: x in s[1..] ==> x in s;
      RemoveAllNone(s[1..], d);
    }
  }

  /** A sequence with no element in `d` keeps none of them. */
  lemma AmongNone(s: seq<string>, d: set<string>)
    requires forall x :: x in s ==> x !in d
    ensures Among(s, d) == []
  {
  }

  /** When `d` holds exactly the elements of `s` outside `keep`, removing `d` keeps the ones in `keep`. */
  lemma {:induction false} RemoveIsAmong(s: seq<string>, d: set<string>, keep: set<string>)
    requires forall x :: x in s ==> (x in d <==> x !in keep)
    ensures RemoveAll(s, d) == Among(s, keep)
  {
    if s != [] {
      assert s[0] in s;
      assert forall x :: x in s[1..] ==> x in s;
      RemoveIsAmong(s[1..], d, keep);
    }
  }

  /** Two removals in a row are one removal of both sets. */
  lemma {:induction false} RemoveAllTwice(s: seq<string>, d: set<string>, e: set<string>)
    ensures RemoveAll(RemoveAll(s, d), e) == RemoveAll(s, d + e)
  {
    if s != [] {
      RemoveAllTwice(s[1..], d, e);
    }
  }

  /** Appending a new element to a sequence without duplicates keeps it without duplicates. */
  lemma DistinctAppend(s: seq<string>, x: string)
    requires Distinct(s) && x !in s
    ensures Distinct(s + [x])
  {
    var t := s + [x];
    forall i, j | 0 <= i < j < |t| ensures t[i] != t[j] {
      if j == |s| {
        assert t[i] == s[i];
        assert s[i] in s;
      }
    }
  }
}
