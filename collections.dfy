/**
 * The few JavaScript array and object built-ins the stores rely on, on integer
 * sequences and sets: `Array.prototype.filter` with a membership test,
 * `Object.keys` of an integer-keyed object, and `Array.prototype.sort` with the
 * numeric comparator `(a, b) => a - b`.
 */
module Collections {

  /** The elements of `s` increase strictly from left to right, so none repeats. */
  ghost predicate StrictlyAscending(s: seq<int>) {
    forall i, j :: 0 <= i < j < |s| ==> s[i] < s[j]
  }

  /** The elements of `s` never decrease from left to right. */
  ghost predicate Ascending(s: seq<int>) {
    forall i, j :: 0 <= i < j < |s| ==> s[i] <= s[j]
  }

  /** A value below every element of an ascending sequence may be put in front of it. */
  lemma Cons(h: int, t: seq<int>)
    ensures (forall y :: y in t ==> h <= y) && Ascending(t) ==> Ascending([h] + t)
    ensures (forall y :: y in t ==> h < y) && StrictlyAscending(t) ==> StrictlyAscending([h] + t)
  {
    forall j | 0 < j < |[h] + t| ensures ([h] + t)[j] in t {
      assert ([h] + t)[j] == t[j - 1];
    }
  }

  /** The first element of a strictly ascending sequence is below all later ones. */
  lemma HeadBelow(s: seq<int>)
    requires s != []
    ensures StrictlyAscending(s) ==> forall y :: y in s[1..] ==> s[0] < y
    ensures Ascending(s) ==> forall y :: y in s[1..] ==> s[0] <= y
  {
    forall y | y in s[1..] ensures exists j :: 1 <= j < |s| && s[j] == y {
      var i :| 0 <= i < |s[1..]| && s[1..][i] == y;
      assert s[i + 1] == y;
    }
  }

  /**
   * `s.filter(x => !excluded.has(x))`: the elements of `s` outside `excluded`,
   * in their order, each as often as it occurs in `s`.
   */
  function Except(s: seq<int>, excluded: set<int>): (r: seq<int>)
    ensures forall x :: x in r <==> x in s && x !in excluded
    ensures StrictlyAscending(s) ==> StrictlyAscending(r)
  {
    if s == [] then []
    else if s[0] in excluded then Except(s[1..], excluded)
    else
      HeadBelow(s);
      Cons(s[0], Except(s[1..], excluded));
      [s[0]] + Except(s[1..], excluded)
  }

  /**
   * `s.filter(x => included.has(x))`: the elements of `s` inside `included`,
   * in their order, each as often as it occurs in `s`.
   */
  function Only(s: seq<int>, included: set<int>): (r: seq<int>)
    ensures forall x :: x in r <==> x in s && x in included
    ensures StrictlyAscending(s) ==> StrictlyAscending(r)
  {
    if s == [] then []
    else if s[0] in included then
      HeadBelow(s);
      Cons(s[0], Only(s[1..], included));
      [s[0]] + Only(s[1..], included)
    else Only(s[1..], included)
  }

  /**
   * The membership filters work element by element: a single element is kept
   * or dropped, and filtering a concatenation filters each part in place, so
   * the kept elements stay in their original order.
   */
  lemma {:induction false} OnlyAppend(a: seq<int>, b: seq<int>, included: set<int>)
    ensures Only(a + b, included) == Only(a, included) + Only(b, included)
  {
    if a != [] {
      assert (a + b)[1..] == a[1..] + b;
      OnlyAppend(a[1..], b, included);
    } else {
      assert a + b == b;
    }
  }

  /** `Except` likewise filters a concatenation part by part. */
  lemma {:induction false} ExceptAppend(a: seq<int>, b: seq<int>, excluded: set<int>)
    ensures Except(a + b, excluded) == Except(a, excluded) + Except(b, excluded)
  {
    if a != [] {
      assert (a + b)[1..] == a[1..] + b;
      ExceptAppend(a[1..], b, excluded);
    } else {
      assert a + b == b;
    }
  }

  /** The filters keep every occurrence of a kept value: repeats survive. */
  lemma {:induction false} FilterCounts(s: seq<int>, tested: set<int>)
    ensures forall x :: multiset(Only(s, tested))[x] == if x in tested then multiset(s)[x] else 0
    ensures forall x :: multiset(Except(s, tested))[x] == if x in tested then 0 else multiset(s)[x]
  {
    if s != [] {
      FilterCounts(s[1..], tested);
      assert s == [s[0]] + s[1..];
    }
  }

  /** On one element the filters keep it exactly when it passes the test. */
  lemma FilterSingle(x: int, tested: set<int>)
    ensures Only([x], tested) == if x in tested then [x] else []
    ensures Except([x], tested) == if x in tested then [] else [x]
  {
    assert [x][1..] == [];
  }

  /** A set other than the empty set has a member. */
  lemma NonEmptyHasMember(s: set<int>)
    requires s != {}
    ensures exists y :: y in s
  {
    if forall y :: y !in s {
      assert false;
    }
  }

  lemma {:induction false} HasLeast(s: set<int>)
    requires s != {}
    ensures exists m :: m in s && forall x :: x in s ==> m <= x
  {
    NonEmptyHasMember(s);
    var y :| y in s;
    if s != {y} {
      var rest := s - {y};
      HasLeast(rest);
      var m :| m in rest && forall x :: x in rest ==> m <= x;
      var least := if y < m then y else m;
      forall x | x in s ensures least <= x {
        if x != y { assert x in rest; }
      }
    } else {
      assert forall x :: x in s ==> y <= x;
    }
  }

  /** The smallest element of a non-empty finite set. */
  function Least(s: set<int>): (m: int)
    requires s != {}
    ensures m in s
    ensures forall x :: x in s ==> m <= x
  {
    HasLeast(s);
    var m :| m in s && forall x :: x in s ==> m <= x; m
  }

  /**
   * `Object.keys(o).map(Number)` for an object whose keys are integers: the
   * keys, each once, in ascending numeric order.
   */
  function SortedKeys(keys: set<int>): (r: seq<int>)
    ensures StrictlyAscending(r)
    ensures forall x :: x in r <==> x in keys
    decreases |keys|
  {
    if keys == {} then []
    else
      var m := Least(keys);
      [m] + SortedKeys(keys - {m})
  }

  /** Removing the first element of a strictly ascending sequence removes exactly that value. */
  lemma TailMembers(s: seq<int>)
    requires StrictlyAscending(s) && s != []
    ensures forall x :: x in s[1..] <==> x in s && x != s[0]
  {
    forall x | x in s && x != s[0] ensures x in s[1..] {
      var i :| 0 <= i < |s| && s[i] == x;
      assert s[1..][i - 1] == x;
    }
  }

  /** A strictly ascending sequence lists a set of exactly its length. */
  lemma {:induction false} AscendingCardinality(s: seq<int>)
    requires StrictlyAscending(s)
    ensures |set x | x in s| == |s|
  {
    if s != [] {
      AscendingCardinality(s[1..]);
      TailMembers(s);
      assert (set x | x in s) == {s[0]} + (set x | x in s[1..]);
    }
  }

  /**
   * Two strictly ascending sequences with the same elements are equal: the
   * order of a sorted, repeat-free listing is determined by its contents.
   */
  lemma {:induction false} AscendingUnique(a: seq<int>, b: seq<int>)
    requires StrictlyAscending(a) && StrictlyAscending(b)
    requires forall x :: x in a <==> x in b
    ensures a == b
  {
    AscendingCardinality(a);
    AscendingCardinality(b);
    assert (set x | x in a) == (set x | x in b);
    if |a| > 0 {
      assert a[0] in b;
      assert b[0] in a;
      assert a[0] == b[0];
      TailMembers(a);
      TailMembers(b);
      AscendingUnique(a[1..], b[1..]);
      assert a == [a[0]] + a[1..];
      assert b == [b[0]] + b[1..];
    }
  }

  /** `SortedKeys` lists a filtered key set the same as filtering the listed keys. */
  lemma SortedKeysOnly(keys: set<int>, included: set<int>)
    ensures Only(SortedKeys(keys), included) == SortedKeys(keys * included)
  {
    AscendingUnique(Only(SortedKeys(keys), included), SortedKeys(keys * included));
  }

  /** Dropping one value from a key listing is the listing of the smaller key set. */
  lemma SortedKeysExcept(keys: set<int>, excluded: set<int>)
    ensures Except(SortedKeys(keys), excluded) == SortedKeys(keys - excluded)
  {
    AscendingUnique(Except(SortedKeys(keys), excluded), SortedKeys(keys - excluded));
  }

  /**
   * Insert `x` into an ascending sequence after every element not greater
   * than it.
   */
  function Insert(s: seq<int>, x: int): (r: seq<int>)
    ensures forall y :: y in r <==> y in s || y == x
    ensures Ascending(s) ==> Ascending(r)
    ensures StrictlyAscending(s) && x !in s ==> StrictlyAscending(r)
  {
    if s == [] then [x]
    else if x < s[0] then
      HeadBelow(s);
      Cons(x, s);
      [x] + s
    else
      var rest := Insert(s[1..], x);
      assert s == [s[0]] + s[1..];
      HeadBelow(s);
      Cons(s[0], rest);
      [s[0]] + rest
  }

  /** Inserting adds exactly one occurrence of the value and keeps every other element. */
  lemma {:induction false} InsertPermutes(s: seq<int>, x: int)
    ensures multiset(Insert(s, x)) == multiset(s) + multiset{x}
  {
    if s != [] && !(x < s[0]) {
      InsertPermutes(s[1..], x);
      assert s == [s[0]] + s[1..];
    }
  }

  /**
   * `s.sort((a, b) => a - b)`: the ascending rearrangement of `s`, built by
   * insertion.
   */
  function SortAscending(s: seq<int>): (r: seq<int>)
    ensures multiset(r) == multiset(s)
    ensures Ascending(r)
  {
    if s == [] then []
    else
      assert s == s[..|s| - 1] + [s[|s| - 1]];
      InsertPermutes(SortAscending(s[..|s| - 1]), s[|s| - 1]);
      Insert(SortAscending(s[..|s| - 1]), s[|s| - 1])
  }

  /** An element not smaller than everything already present goes to the end. */
  lemma {:induction false} InsertAtEnd(s: seq<int>, x: int)
    requires forall y :: y in s ==> y <= x
    ensures Insert(s, x) == s + [x]
  {
    if s != [] {
      assert s[0] in s;
      assert forall y :: y in s[1..] ==> y in s;
      InsertAtEnd(s[1..], x);
      assert s == [s[0]] + s[1..];
    }
  }

  /** Dropping the last element of an ascending sequence keeps it ascending, below that element. */
  lemma AscendingInit(s: seq<int>)
    requires Ascending(s) && s != []
    ensures Ascending(s[..|s| - 1])
    ensures forall i :: 0 <= i < |s| - 1 ==> s[i] <= s[|s| - 1]
  {
  }

  /** Sorting an ascending sequence leaves it as it is. */
  lemma {:induction false} SortAscendingFixes(s: seq<int>)
    requires Ascending(s)
    ensures SortAscending(s) == s
  {
    if s != [] {
      var init, last := s[..|s| - 1], s[|s| - 1];
      assert s == init + [last];
      assert SortAscending(init) == init by {
        AscendingInit(s);
        SortAscendingFixes(init);
      }
      assert Insert(init, last) == s by {
        LastIsLargest(init, last);
        InsertAtEnd(init, last);
      }
    }
  }

  /** The last element of an ascending sequence bounds all the others. */
  lemma LastIsLargest(init: seq<int>, last: int)
    requires Ascending(init + [last])
    ensures forall y :: y in init ==> y <= last
  {
    forall y | y in init ensures y <= last {
      var i :| 0 <= i < |init| && init[i] == y;
      assert (init + [last])[i] == y && (init + [last])[|init|] == last;
    }
  }

  /** Appending one value and sorting inserts the value into an ascending sequence. */
  lemma SortAfterAppend(s: seq<int>, x: int)
    requires Ascending(s)
    ensures SortAscending(s + [x]) == Insert(s, x)
  {
    assert (s + [x])[..|s|] == s;
    SortAscendingFixes(s);
  }
}
