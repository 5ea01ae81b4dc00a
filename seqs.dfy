/** Sequence helpers shared by the service and the directive: JavaScript's
    `Array.prototype.indexOf` and `splice(i, 1)`, the filter that takes a set
    of elements out of a sequence (the selected tags other than one, the SVG
    layers left after `selectAll([...]).remove()`), and the facts about them
    that the toggle and the layer policy rely on. */
module Seqs {

  /** No element occurs twice. */
  predicate NoDup<T(==)>(s: seq<T>) {
    forall i, j :: 0 <= i < j < |s| ==> s[i] != s[j]
  }

  /** `s.indexOf(x)`: the first index holding x, or -1 when there is none. */
  function IndexOf<T(==)>(s: seq<T>, x: T): (r: int)
    ensures -1 <= r < |s|
    ensures r == -1 <==> x !in s
    ensures 0 <= r ==> s[r] == x && forall j :: 0 <= j < r ==> s[j] != x
  {
    if |s| == 0 then -1
    else if s[0] == x then 0
    else
      var k := IndexOf(s[1..], x);
      if k == -1 then -1 else k + 1
  }

  /** `s.splice(i, 1)`: the sequence with the element at index i taken out. */
  function RemoveAt<T>(s: seq<T>, i: nat): (r: seq<T>)
    requires i < |s|
    ensures |r| == |s| - 1
    ensures forall j :: 0 <= j < i ==> r[j] == s[j]
    ensures forall j :: i <= j < |r| ==> r[j] == s[j + 1]
  {
    s[..i] + s[i + 1..]
  }

  /** The elements of s that are not in `drop`, in their order in s. */
  function Except<T(==)>(s: seq<T>, drop: set<T>): (r: seq<T>)
    ensures forall i :: 0 <= i < |r| ==> r[i] in s && r[i] !in drop
    ensures forall i :: 0 <= i < |s| && s[i] !in drop ==> s[i] in r
    ensures |r| <= |s|
  {
    if s == [] then []
    else if s[0] in drop then Except(s[1..], drop)
    else [s[0]] + Except(s[1..], drop)
  }

  lemma {:induction false} ExceptAppend<T>(a: seq<T>, b: seq<T>, drop: set<T>)
    ensures Except(a + b, drop) == Except(a, drop) + Except(b, drop)
  {
    if a == [] {
      assert a + b == b;
    } else {
      assert (a + b)[1..] == a[1..] + b;
      ExceptAppend(a[1..], b, drop);
    }
  }

  /** Filtering keeps a sequence free of duplicates. */
  lemma {:induction false} ExceptNoDup<T>(s: seq<T>, drop: set<T>)
    requires NoDup(s)
    ensures NoDup(Except(s, drop))
  {
    if s != [] {
      var tail := s[1..];
      assert NoDup(tail) by {
        forall i, j | 0 <= i < j < |tail| ensures tail[i] != tail[j] {
          assert tail[i] == s[i + 1] && tail[j] == s[j + 1];
        }
      }
      ExceptNoDup(tail, drop);
      assert s[0] !in tail by {
        forall j | 0 <= j < |tail| ensures tail[j] != s[0] {
          assert tail[j] == s[j + 1];
        }
      }
      if s[0] !in drop {
        var r := [s[0]] + Except(tail, drop);
        forall i, j | 0 <= i < j < |r| ensures r[i] != r[j] {
          if i == 0 { assert r[j] in Except(tail, drop); }
          else { assert r[i] == Except(tail, drop)[i - 1] && r[j] == Except(tail, drop)[j - 1]; }
        }
      }
    }
  }

  /** Nothing to take out: the sequence comes back as it was. */
  lemma {:induction false} ExceptNothing<T>(s: seq<T>, drop: set<T>)
    requires forall i :: 0 <= i < |s| ==> s[i] !in drop
    ensures Except(s, drop) == s
  {
    if s != [] {
      assert s[0] !in drop;
      ExceptNothing(s[1..], drop);
      assert s == [s[0]] + s[1..];
    }
  }

  /** Filtering twice by the same set is filtering once. */
  lemma ExceptIdempotent<T>(s: seq<T>, drop: set<T>)
    ensures Except(Except(s, drop), drop) == Except(s, drop)
  {
    var r := Except(s, drop);
    forall i | 0 <= i < |r| ensures r[i] !in drop {
      assert r[i] in r;
    }
    ExceptNothing(r, drop);
  }

  /** Taking out one element does not disturb the other elements or their order. */
  lemma RemoveAtKeepsOthers<T>(s: seq<T>, i: nat)
    requires i < |s|
    ensures Except(RemoveAt(s, i), {s[i]}) == Except(s, {s[i]})
  {
    var x, pre, post := s[i], s[..i], s[i + 1..];
    assert s == pre + ([x] + post);
    ExceptAppend(pre, [x] + post, {x});
    ExceptAppend([x], post, {x});
    assert Except([x], {x}) == [];
    ExceptAppend(pre, post, {x});
  }

  /** Appending an element that does not occur keeps a sequence free of duplicates. */
  lemma AppendNoDup<T>(s: seq<T>, x: T)
    requires NoDup(s) && x !in s
    ensures NoDup(s + [x])
  {
    var r := s + [x];
    forall i, j | 0 <= i < j < |r| ensures r[i] != r[j] {
      if j == |s| { assert r[i] == s[i]; }
    }
  }

  /** A sequence without duplicates that holds exactly the elements of a
      set is as long as the set is large. */
  lemma {:induction false} NoDupCard<T>(s: seq<T>, elems: set<T>)
    requires NoDup(s)
    requires forall x :: x in elems <==> x in s
    ensures |s| == |elems|
  {
    if s != [] {
      var init, last := s[..|s| - 1], s[|s| - 1];
      assert s == init + [last];
      assert last !in init by {
        forall i | 0 <= i < |init| ensures init[i] != last {
          assert init[i] == s[i];
        }
      }
      assert NoDup(init) by {
        forall i, j | 0 <= i < j < |init| ensures init[i] != init[j] {
          assert init[i] == s[i] && init[j] == s[j];
        }
      }
      NoDupCard(init, elems - {last});
    }
  }

  /** Without a duplicate, the element taken out no longer occurs. */
  lemma RemoveAtNoDup<T>(s: seq<T>, i: nat)
    requires i < |s| && NoDup(s)
    ensures NoDup(RemoveAt(s, i))
    ensures s[i] !in RemoveAt(s, i)
  {
    var r := RemoveAt(s, i);
    forall j | 0 <= j < |r| ensures r[j] != s[i] {
      if j < i { assert r[j] == s[j]; } else { assert r[j] == s[j + 1]; }
    }
  }
}
