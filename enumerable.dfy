/**
 * The few `Enumerable`, `Array` and `String` operations of Ruby's core library that the release
 * drafter's pipelines are built from, as functions with the contracts Ruby documents for them.
 */
module Enumerable {
  import opened Wrappers

  /** `select`: the elements that satisfy `f`, in their original order. */
  function Select<T(!new)>(s: seq<T>, f: T -> bool): (r: seq<T>)
    ensures |r| <= |s|
    ensures forall x :: x in r <==> x in s && f(x)
    decreases |s|
  {
    if s == [] then []
    else
      var init := s[..|s| - 1];
      assert s == init + [s[|s| - 1]];
      Select(init, f) + (if f(s[|s| - 1]) then [s[|s| - 1]] else [])
  }

  lemma {:induction false} SelectAppend<T(!new)>(a: seq<T>, b: seq<T>, f: T -> bool)
    ensures Select(a + b, f) == Select(a, f) + Select(b, f)
    decreases |b|
  {
    if b == [] {
      assert a + b == a;
    } else {
      var init := b[..|b| - 1];
      assert (a + b)[..|a + b| - 1] == a + init;
      assert (a + b)[|a + b| - 1] == b[|b| - 1];
      SelectAppend(a, init, f);
    }
  }

  lemma {:induction false} SelectSingle<T(!new)>(x: T, f: T -> bool)
    ensures Select([x], f) == if f(x) then [x] else []
  {
    assert [x][..0] == [];
  }

  /** `flat_map`: the concatenation, in order, of `f` applied to every element. */
  function FlatMap<T, U(!new)>(s: seq<T>, f: T -> seq<U>): (r: seq<U>)
    ensures forall y :: y in r <==> exists i :: 0 <= i < |s| && y in f(s[i])
    decreases |s|
  {
    if s == [] then []
    else
      var init := s[..|s| - 1];
      var r := FlatMap(init, f) + f(s[|s| - 1]);
      assert forall y :: y in r <==> exists i :: 0 <= i < |s| && y in f(s[i]) by {
        forall y ensures y in r <==> exists i :: 0 <= i < |s| && y in f(s[i]) {
          if y in r {
            if y in FlatMap(init, f) {
              var i :| 0 <= i < |init| && y in f(init[i]);
              assert s[i] == init[i];
            } else {
              assert y in f(s[|s| - 1]);
            }
          }
          if exists i :: 0 <= i < |s| && y in f(s[i]) {
            var i :| 0 <= i < |s| && y in f(s[i]);
            if i < |s| - 1 {
              assert init[i] == s[i];
            }
          }
        }
      }
      r
  }

  lemma {:induction false} FlatMapAppend<T, U(!new)>(a: seq<T>, b: seq<T>, f: T -> seq<U>)
    ensures FlatMap(a + b, f) == FlatMap(a, f) + FlatMap(b, f)
    decreases |b|
  {
    if b == [] {
      assert a + b == a;
    } else {
      var init := b[..|b| - 1];
      assert (a + b)[..|a + b| - 1] == a + init;
      assert (a + b)[|a + b| - 1] == b[|b| - 1];
      FlatMapAppend(a, init, f);
    }
  }

  /** `all?`: every element satisfies `f`. */
  function All<T>(s: seq<T>, f: T -> bool): (r: bool)
    ensures r <==> forall i :: 0 <= i < |s| ==> f(s[i])
    decreases |s|
  {
    if s == [] then true
    else All(s[..|s| - 1], f) && f(s[|s| - 1])
  }

  /** The index of the first element satisfying `f`, or `|s|` when there is none. */
  function FirstIndex<T>(s: seq<T>, f: T -> bool): (i: nat)
    ensures i <= |s|
    ensures forall j :: 0 <= j < i ==> !f(s[j])
    ensures i < |s| ==> f(s[i])
    decreases |s|
  {
    if s == [] then 0
    else if f(s[0]) then 0
    else 1 + FirstIndex(s[1..], f)
  }

  /** `find`: the first element satisfying `f`, or `nil`. */
  function Find<T>(s: seq<T>, f: T -> bool): (r: Option<T>)
    ensures r.None? <==> forall x :: x in s ==> !f(x)
    ensures r.Some? ==> r.value in s && f(r.value)
  {
    var i := FirstIndex(s, f);
    if i < |s| then Some(s[i]) else None
  }

  /** `reverse`. */
  function Reverse<T>(s: seq<T>): (r: seq<T>)
    ensures |r| == |s|
    ensures forall i :: 0 <= i < |s| ==> r[i] == s[|s| - 1 - i]
    decreases |s|
  {
    if s == [] then [] else Reverse(s[1..]) + [s[0]]
  }

  /** Non-decreasing in `key`. */
  ghost predicate SortedBy<T>(s: seq<T>, key: T -> int) {
    forall i, j :: 0 <= i < j < |s| ==> key(s[i]) <= key(s[j])
  }

  /** Inserts `x` into a sorted sequence after every element whose key is not greater. */
  function InsertBy<T>(x: T, s: seq<T>, key: T -> int): (r: seq<T>)
    requires SortedBy(s, key)
    ensures |r| == |s| + 1
    ensures multiset(r) == multiset(s) + multiset{x}
    ensures SortedBy(r, key)
    decreases |s|
  {
    if s == [] then [x]
    else if key(x) < key(s[0]) then [x] + s
    else
      var tail := InsertBy(x, s[1..], key);
      assert s == [s[0]] + s[1..];
      forall k | 0 <= k < |tail| ensures key(s[0]) <= key(tail[k]) {
        assert tail[k] in multiset(tail);
        if tail[k] != x {
          assert tail[k] in s[1..];
        }
      }
      SortedCons(s[0], tail, key);
      [s[0]] + tail
  }

  lemma {:induction false} SortedCons<T>(h: T, t: seq<T>, key: T -> int)
    requires SortedBy(t, key)
    requires forall k :: 0 <= k < |t| ==> key(h) <= key(t[k])
    ensures SortedBy([h] + t, key)
  {
    var r := [h] + t;
    forall i, j | 0 <= i < j < |r| ensures key(r[i]) <= key(r[j]) {
      assert r[j] == t[j - 1];
      if i > 0 {
        assert r[i] == t[i - 1];
      }
    }
  }

  /**
   * `sort_by`: a permutation of `s` that is non-decreasing in `key`. Ruby's sort is not stable; this
   * one is, and only sortedness and the permutation are promised about it.
   */
  function SortBy<T>(s: seq<T>, key: T -> int): (r: seq<T>)
    ensures |r| == |s|
    ensures multiset(r) == multiset(s)
    ensures SortedBy(r, key)
    decreases |s|
  {
    if s == [] then []
    else
      var init := s[..|s| - 1];
      assert s == init + [s[|s| - 1]];
      InsertBy(s[|s| - 1], SortBy(init, key), key)
  }

  lemma {:induction false} InsertLast<T>(x: T, s: seq<T>, key: T -> int)
    requires SortedBy(s, key)
    requires forall y :: y in s ==> key(y) <= key(x)
    ensures InsertBy(x, s, key) == s + [x]
    decreases |s|
  {
    if s != [] {
      assert s[0] in s;
      InsertLast(x, s[1..], key);
      assert s == [s[0]] + s[1..];
    }
  }

  /** A sequence that is already sorted comes back unchanged. */
  lemma {:induction false} SortBySorted<T>(s: seq<T>, key: T -> int)
    requires SortedBy(s, key)
    ensures SortBy(s, key) == s
    decreases |s|
  {
    if s != [] {
      var init := s[..|s| - 1];
      var last := s[|s| - 1];
      assert s == init + [last];
      assert SortedBy(init, key) by {
        forall i, j | 0 <= i < j < |init| ensures key(init[i]) <= key(init[j]) {
          assert init[i] == s[i] && init[j] == s[j];
        }
      }
      SortBySorted(init, key);
      assert forall y :: y in init ==> key(y) <= key(last) by {
        forall y | y in init ensures key(y) <= key(last) {
          var k :| 0 <= k < |init| && init[k] == y;
          assert s[k] == y;
        }
      }
      InsertLast(last, init, key);
      assert SortBy(s, key) == InsertBy(last, SortBy(init, key), key);
    }
  }

  /** `map`. */
  function Map<T, U>(s: seq<T>, g: T -> U): (r: seq<U>)
    ensures |r| == |s|
  {
    seq(|s|, i requires 0 <= i < |s| => g(s[i]))
  }

  /** A map that keeps every key keeps a sorted sequence sorted. */
  lemma {:induction false} MapSorted<T>(s: seq<T>, key: T -> int, g: T -> T)
    requires SortedBy(s, key)
    requires forall y :: y in s ==> key(g(y)) == key(y)
    ensures SortedBy(Map(s, g), key)
  {
    var m := Map(s, g);
    forall i, j | 0 <= i < j < |m| ensures key(m[i]) <= key(m[j]) {
      assert s[i] in s && s[j] in s;
    }
  }

  lemma {:induction false} MapCons<T, U>(h: T, t: seq<T>, g: T -> U)
    ensures Map([h] + t, g) == [g(h)] + Map(t, g)
  {
    var a := Map([h] + t, g);
    var b := [g(h)] + Map(t, g);
    forall i | 0 <= i < |a| ensures a[i] == b[i] {
      if i > 0 {
        assert ([h] + t)[i] == t[i - 1];
      }
    }
  }

  /** Past the first element of a sorted sequence, insertion goes on in the tail. */
  lemma {:induction false} InsertByCons<T>(x: T, s: seq<T>, key: T -> int)
    requires SortedBy(s, key) && s != [] && key(s[0]) <= key(x)
    ensures SortedBy(s[1..], key)
    ensures InsertBy(x, s, key) == [s[0]] + InsertBy(x, s[1..], key)
  {
    var rest := s[1..];
    forall i, j | 0 <= i < j < |rest| ensures key(rest[i]) <= key(rest[j]) {
      assert rest[i] == s[i + 1] && rest[j] == s[j + 1];
    }
  }

  /** Inserting commutes with a map that keeps every key. */
  lemma {:induction false} InsertByMap<T>(x: T, s: seq<T>, key: T -> int, g: T -> T)
    requires SortedBy(s, key)
    requires key(g(x)) == key(x)
    requires forall y :: y in s ==> key(g(y)) == key(y)
    ensures SortedBy(Map(s, g), key)
    ensures InsertBy(g(x), Map(s, g), key) == Map(InsertBy(x, s, key), g)
    decreases |s|
  {
    MapSorted(s, key, g);
    var m := Map(s, g);
    if s == [] {
      MapCons(x, s, g);
    } else {
      assert s[0] in s;
      assert s == [s[0]] + s[1..];
      MapCons(s[0], s[1..], g);
      if key(x) < key(s[0]) {
        MapCons(x, s, g);
      } else {
        var rest := s[1..];
        InsertByCons(x, s, key);
        InsertByCons(g(x), m, key);
        assert forall y :: y in rest ==> y in s;
        InsertByMap(x, rest, key, g);
        MapCons(s[0], InsertBy(x, rest, key), g);
      }
    }
  }

  /** Sorting commutes with a map that keeps every key: the mapped elements land where the originals did. */
  lemma {:induction false} SortByMap<T>(s: seq<T>, key: T -> int, g: T -> T)
    requires forall y :: y in s ==> key(g(y)) == key(y)
    ensures SortBy(Map(s, g), key) == Map(SortBy(s, key), g)
    decreases |s|
  {
    if s != [] {
      var init := s[..|s| - 1];
      var last := s[|s| - 1];
      var m := Map(s, g);
      assert m[..|m| - 1] == Map(init, g);
      assert m[|m| - 1] == g(last);
      assert forall y :: y in init ==> y in s;
      SortByMap(init, key, g);
      var sorted := SortBy(init, key);
      forall y | y in sorted ensures key(g(y)) == key(y) {
        assert y in multiset(sorted);
        assert y in init;
      }
      assert last in s;
      InsertByMap(last, sorted, key, g);
      assert SortBy(m, key) == InsertBy(g(last), SortBy(Map(init, g), key), key);
    }
  }

  lemma {:induction false} ReverseMap<T, U>(s: seq<T>, g: T -> U)
    ensures Reverse(Map(s, g)) == Map(Reverse(s), g)
  {
    var a := Reverse(Map(s, g));
    var b := Map(Reverse(s), g);
    assert forall i :: 0 <= i < |a| ==> a[i] == b[i];
  }

  lemma {:induction false} FirstIndexMap<T, U>(s: seq<T>, f: U -> bool, g: T -> U, h: T -> bool)
    requires forall y :: y in s ==> f(g(y)) == h(y)
    ensures FirstIndex(Map(s, g), f) == FirstIndex(s, h)
    decreases |s|
  {
    if s != [] {
      assert s[0] in s;
      assert Map(s, g)[0] == g(s[0]);
      if !h(s[0]) {
        assert Map(s, g)[1..] == Map(s[1..], g);
        assert forall y :: y in s[1..] ==> y in s;
        FirstIndexMap(s[1..], f, g, h);
      }
    }
  }

  /** `find` after a map that keeps the test finds the image of what `find` finds before it. */
  lemma {:induction false} FindMap<T>(s: seq<T>, f: T -> bool, g: T -> T)
    requires forall y :: y in s ==> f(g(y)) == f(y)
    ensures Find(Map(s, g), f) == if Find(s, f).Some? then Some(g(Find(s, f).value)) else None
  {
    FirstIndexMap(s, f, g, f);
  }

  /** `include?` on a String: `needle` occurs somewhere in `hay`. */
  predicate Contains(hay: string, needle: string)
    decreases |hay|
  {
    needle <= hay || (hay != [] && Contains(hay[1..], needle))
  }

  lemma {:induction false} ContainsStart(hay: string, needle: string, rest: string)
    ensures Contains(needle + rest, needle)
  {
    assert needle <= needle + rest;
  }

  lemma {:induction false} ContainsAfter(front: string, hay: string, needle: string)
    requires Contains(hay, needle)
    ensures Contains(front + hay, needle)
    decreases |front|
  {
    if front == [] {
      assert front + hay == hay;
    } else {
      assert (front + hay)[1..] == front[1..] + hay;
      ContainsAfter(front[1..], hay, needle);
    }
  }

  lemma {:induction false} ContainsBefore(hay: string, back: string, needle: string)
    requires Contains(hay, needle)
    ensures Contains(hay + back, needle)
    decreases |hay|
  {
    if needle <= hay {
      assert needle <= hay + back;
    } else {
      assert (hay + back)[1..] == hay[1..] + back;
      ContainsBefore(hay[1..], back, needle);
    }
  }

  /** `join(sep)`. */
  function Join(parts: seq<string>, sep: string): string
    decreases |parts|
  {
    if parts == [] then ""
    else if |parts| == 1 then parts[0]
    else parts[0] + sep + Join(parts[1..], sep)
  }

  /** Whatever occurs in one of the joined parts occurs in the joined string. */
  lemma {:induction false} JoinContains(parts: seq<string>, sep: string, i: nat, needle: string)
    requires i < |parts| && Contains(parts[i], needle)
    ensures Contains(Join(parts, sep), needle)
    decreases |parts|
  {
    if |parts| == 1 {
    } else if i == 0 {
      ContainsBefore(parts[0], sep + Join(parts[1..], sep), needle);
      assert parts[0] + sep + Join(parts[1..], sep) == parts[0] + (sep + Join(parts[1..], sep));
    } else {
      JoinContains(parts[1..], sep, i - 1, needle);
      ContainsAfter(parts[0] + sep, Join(parts[1..], sep), needle);
    }
  }
}
