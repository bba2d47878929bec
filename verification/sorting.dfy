/** The stable sort of the standard library, by its specification and one algorithm that meets it. */
module Sorting {
  import opened Sequences

  ghost predicate TotalPreorder<T(!new)>(le: (T, T) -> bool) {
    && (forall x, y :: le(x, y) || le(y, x))
    && (forall x, y, z :: le(x, y) && le(y, z) ==> le(x, z))
  }

  ghost predicate Sorted<T>(s: seq<T>, le: (T, T) -> bool) {
    forall i, j :: 0 <= i < j < |s| ==> le(s[i], s[j])
  }

  /** The elements ranked equal to `x`, in the order they stand in. */
  function Peers<T>(s: seq<T>, x: T, le: (T, T) -> bool): seq<T> {
    if s == [] then []
    else (if le(s[0], x) && le(x, s[0]) then [s[0]] else []) + Peers(s[1..], x, le)
  }

  /** `t` is `s` sorted stably: in order, with the peers of every element as they stood in `s`. */
  ghost predicate StablySorted<T(!new)>(s: seq<T>, t: seq<T>, le: (T, T) -> bool) {
    Sorted(t, le) && forall x :: Peers(t, x, le) == Peers(s, x, le)
  }

  function Insert<T>(x: T, s: seq<T>, le: (T, T) -> bool): seq<T> {
    if s == [] || le(x, s[0]) then [x] + s else [s[0]] + Insert(x, s[1..], le)
  }

  function StableSort<T>(s: seq<T>, le: (T, T) -> bool): (t: seq<T>)
    ensures |t| == |s|
  {
    if s == [] then [] else InsertLength(s[0], StableSort(s[1..], le), le); Insert(s[0], StableSort(s[1..], le), le)
  }

  lemma {:induction false} InsertLength<T>(x: T, s: seq<T>, le: (T, T) -> bool)
    ensures |Insert(x, s, le)| == |s| + 1
    ensures multiset(Insert(x, s, le)) == multiset(s) + multiset{x}
  {
    if s == [] || le(x, s[0]) {
    } else {
      InsertLength(x, s[1..], le);
      assert s == [s[0]] + s[1..];
    }
  }

  lemma {:induction false} InsertSorted<T(!new)>(x: T, s: seq<T>, le: (T, T) -> bool)
    requires TotalPreorder(le) && Sorted(s, le)
    ensures Sorted(Insert(x, s, le), le)
  {
    if s == [] || le(x, s[0]) {
    } else {
      var rest := Insert(x, s[1..], le);
      InsertSorted(x, s[1..], le);
      InsertLength(x, s[1..], le);
      forall j | 0 <= j < |rest|
        ensures le(s[0], rest[j])
      {
        assert rest[j] in multiset(rest);
      }
    }
  }

  lemma {:induction false} InsertPeers<T(!new)>(x: T, s: seq<T>, y: T, le: (T, T) -> bool)
    requires TotalPreorder(le)
    ensures Peers(Insert(x, s, le), y, le) == Peers([x] + s, y, le)
  {
    assert ([x] + s)[1..] == s;
    if s == [] || le(x, s[0]) {
    } else {
      InsertPeers(x, s[1..], y, le);
      assert ([x] + s[1..])[1..] == s[1..];
      assert Insert(x, s, le)[1..] == Insert(x, s[1..], le);
    }
  }

  lemma {:induction false} PeersAppend<T>(s: seq<T>, t: seq<T>, y: T, le: (T, T) -> bool)
    ensures Peers(s + t, y, le) == Peers(s, y, le) + Peers(t, y, le)
  {
    if s == [] {
      assert s + t == t;
    } else {
      var head := if le(s[0], y) && le(y, s[0]) then [s[0]] else [];
      PeersAppend(s[1..], t, y, le);
      assert (s + t)[1..] == s[1..] + t;
      ConcatAssociates(head, Peers(s[1..], y, le), Peers(t, y, le));
    }
  }

  /** The algorithm sorts stably and permutes. */
  lemma {:induction false} StableSortSorts<T(!new)>(s: seq<T>, le: (T, T) -> bool)
    requires TotalPreorder(le)
    ensures StablySorted(s, StableSort(s, le), le)
    ensures multiset(StableSort(s, le)) == multiset(s)
  {
    if s != [] {
      var rest := StableSort(s[1..], le);
      StableSortSorts(s[1..], le);
      InsertSorted(s[0], rest, le);
      InsertLength(s[0], rest, le);
      assert s == [s[0]] + s[1..];
      forall y
        ensures Peers(StableSort(s, le), y, le) == Peers(s, y, le)
      {
        InsertPeers(s[0], rest, y, le);
        PeersAppend([s[0]], rest, y, le);
        PeersAppend([s[0]], s[1..], y, le);
      }
    }
  }

  lemma {:induction false} PeersMember<T>(s: seq<T>, x: T, i: nat, le: (T, T) -> bool)
    requires i < |s| && le(s[i], x) && le(x, s[i])
    ensures s[i] in Peers(s, x, le)
  {
    if i > 0 {
      PeersMember(s[1..], x, i - 1, le);
    }
  }

  lemma {:induction false} PeersFrom<T>(s: seq<T>, x: T, y: T, le: (T, T) -> bool) returns (i: nat)
    requires y in Peers(s, x, le)
    ensures i < |s| && s[i] == y && le(y, x) && le(x, y)
  {
    if le(s[0], x) && le(x, s[0]) && y == s[0] {
      i := 0;
    } else {
      i := PeersFrom(s[1..], x, y, le);
      i := i + 1;
    }
  }

  lemma HasPeers<T(!new)>(s: seq<T>, le: (T, T) -> bool)
    requires s != [] && TotalPreorder(le)
    ensures exists x :: Peers(s, x, le) != []
  {
    assert Peers(s, s[0], le)[0] == s[0];
  }

  /** There is only one way to sort stably, so whatever the library does, this is its result. */
  lemma {:induction false} StableSortIsUnique<T(!new)>(s: seq<T>, a: seq<T>, b: seq<T>, le: (T, T) -> bool)
    requires TotalPreorder(le) && StablySorted(s, a, le) && StablySorted(s, b, le)
    ensures a == b
    decreases |a|
  {
    if a == [] {
      if b != [] {
        HasPeers(b, le);
      }
    } else {
      PeersMember(a, a[0], 0, le);
      var j := PeersFrom(b, a[0], a[0], le);
      PeersMember(b, b[0], 0, le);
      var i := PeersFrom(a, b[0], b[0], le);
      assert le(a[0], b[0]) && le(b[0], a[0]);
      assert Peers(a, a[0], le)[0] == a[0];
      assert Peers(b, a[0], le)[0] == b[0];
      forall y
        ensures Peers(a[1..], y, le) == Peers(b[1..], y, le)
      {
        var k := if le(a[0], y) && le(y, a[0]) then 1 else 0;
        assert Peers(a, y, le) == Peers(b, y, le);
        assert Peers(a, y, le)[k..] == Peers(a[1..], y, le) && Peers(b, y, le)[k..] == Peers(b[1..], y, le);
      }
      StableSortIsUnique(a[1..], a[1..], b[1..], le);
      assert a == [a[0]] + a[1..] && b == [b[0]] + b[1..];
    }
  }
}
