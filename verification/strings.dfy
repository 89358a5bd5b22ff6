/** The string ordering both registries list their names in (Go's
    sort.Strings): lexicographic, character by character, a proper prefix
    first. */
module Strings {

  /** `a` sorts strictly before `b`. */
  predicate Below(a: string, b: string) {
    if |a| == 0 then |b| > 0
    else if |b| == 0 then false
    else if a[0] != b[0] then a[0] < b[0]
    else Below(a[1..], b[1..])
  }

  lemma {:induction false} BelowIrreflexive(a: string)
    ensures !Below(a, a)
  {
    if |a| > 0 {
      BelowIrreflexive(a[1..]);
    }
  }

  lemma {:induction false} BelowTransitive(a: string, b: string, c: string)
    requires Below(a, b) && Below(b, c)
    ensures Below(a, c)
  {
    if |a| > 0 && |b| > 0 && |c| > 0 && a[0] == b[0] && b[0] == c[0] {
      BelowTransitive(a[1..], b[1..], c[1..]);
    }
  }

  /** Any two different strings are ordered one way, and only one way. */
  lemma {:induction false} BelowTotal(a: string, b: string)
    ensures a != b <==> (Below(a, b) || Below(b, a))
    ensures !(Below(a, b) && Below(b, a))
  {
    if |a| > 0 && |b| > 0 && a[0] == b[0] {
      BelowTotal(a[1..], b[1..]);
      if a[1..] == b[1..] {
        assert a == [a[0]] + a[1..] && b == [b[0]] + b[1..];
      }
    } else if a == b {
      BelowIrreflexive(a);
    }
  }

  /** Strictly increasing, hence also free of duplicates. */
  predicate Sorted(s: seq<string>) {
    forall i, j :: 0 <= i < j < |s| ==> Below(s[i], s[j])
  }

  /** `x` inserted into a sorted sequence in front of the first larger
      element. */
  function {:induction false} Insert(s: seq<string>, x: string): (t: seq<string>)
    requires Sorted(s) && x !in s
    ensures Sorted(t)
    ensures Elements(t) == Elements(s) + {x}
    ensures |t| == |s| + 1
  {
    if s == [] then [x]
    else if Below(x, s[0]) then
      assert forall j :: 0 < j < |s| ==> Below(x, s[j]) by {
        forall j | 0 < j < |s| {
          BelowTransitive(x, s[0], s[j]);
        }
      }
      ElementsCons(x, s);
      [x] + s
    else
      BelowTotal(x, s[0]);
      var rest := Insert(s[1..], x);
      assert forall k :: 0 <= k < |rest| ==> Below(s[0], rest[k]) by {
        forall k | 0 <= k < |rest|
          ensures Below(s[0], rest[k])
        {
          assert rest[k] in Elements(rest);
          if rest[k] != x {
            var j :| 0 <= j < |s[1..]| && s[1..][j] == rest[k];
            assert s[j + 1] == rest[k];
          }
        }
      }
      var t := [s[0]] + rest;
      ElementsCons(s[0], rest);
      ElementsCons(s[0], s[1..]);
      assert s == [s[0]] + s[1..];
      t
  }

  /** The elements of a sequence, as a set. */
  function Elements(s: seq<string>): set<string> {
    set x | x in s
  }

  /** The names of a finite set in sorted order (Go collects the keys of a map
      and sorts them; the map's iteration order does not matter). */
  method SortedNames(names: set<string>) returns (s: seq<string>)
    ensures Sorted(s)
    ensures Elements(s) == names
    ensures |s| == |names|
  {
    s := [];
    var rest := names;
    while rest != {}
      invariant Sorted(s)
      invariant Elements(s) !! rest && Elements(s) + rest == names
      invariant |s| + |rest| == |names|
      decreases |rest|
    {
      var x :| x in rest;
      s := Insert(s, x);
      rest := rest - {x};
    }
  }

  /** A set has one sorted listing: two sorted sequences with the same
      elements are equal. */
  lemma {:induction false} SortedUnique(s: seq<string>, t: seq<string>)
    requires Sorted(s) && Sorted(t) && Elements(s) == Elements(t)
    ensures s == t
  {
    ElementsEmpty(s);
    ElementsEmpty(t);
    if s != [] && t != [] {
      assert s[0] == t[0] by {
        assert s[0] in Elements(t) && t[0] in Elements(s);
        var i :| 0 <= i < |t| && t[i] == s[0];
        var j :| 0 <= j < |s| && s[j] == t[0];
        if s[0] != t[0] {
          assert i > 0 && j > 0;
          BelowTotal(s[0], t[0]);
          BelowTransitive(s[0], s[j], s[0]);
          BelowIrreflexive(s[0]);
        }
      }
      assert Elements(s[1..]) == Elements(t[1..]) by {
        SortedTail(s);
        SortedTail(t);
      }
      SortedUnique(s[1..], t[1..]);
      assert s == [s[0]] + s[1..] && t == [t[0]] + t[1..];
    }
  }

  /** The head of a sorted sequence does not occur in its tail. */
  lemma SortedTail(s: seq<string>)
    requires Sorted(s) && s != []
    ensures Elements(s[1..]) == Elements(s) - {s[0]}
  {
    forall k | 0 < k < |s|
      ensures s[k] != s[0]
    {
      BelowTotal(s[0], s[k]);
    }
    ElementsCons(s[0], s[1..]);
    assert s == [s[0]] + s[1..];
  }

  lemma ElementsEmpty(s: seq<string>)
    ensures Elements(s) == {} <==> s == []
  {
    if s != [] {
      assert s[0] in Elements(s);
    }
  }

  lemma ElementsCons(a: string, s: seq<string>)
    ensures Elements([a] + s) == {a} + Elements(s)
  {
  }
}
