/** `sort.SliceStable` for a comparison whose negation is transitive. */
module StableSort {

  ghost predicate WeakOrder<T(!new)>(before: (T, T) -> bool) {
    && (forall a, b :: !(before(a, b) && before(b, a)))
    && (forall a, b, c :: !before(b, a) && !before(c, b) ==> !before(c, a))
  }

  predicate Sorted<T>(before: (T, T) -> bool, s: seq<T>) {
    forall i, j | 0 <= i < j < |s| :: !before(s[j], s[i])
  }

  /** A new last element goes behind everything that it is not before. */
  function Insert<T>(before: (T, T) -> bool, s: seq<T>, x: T): (r: seq<T>)
    ensures |r| == |s| + 1
  {
    if s == [] || !before(x, s[|s| - 1]) then s + [x]
    else Insert(before, s[..|s| - 1], x) + [s[|s| - 1]]
  }

  function Sort<T>(before: (T, T) -> bool, s: seq<T>): (r: seq<T>)
    ensures |r| == |s|
  {
    if s == [] then [] else Insert(before, Sort(before, s[..|s| - 1]), s[|s| - 1])
  }

  lemma {:induction false} InsertPermutes<T>(before: (T, T) -> bool, s: seq<T>, x: T)
    ensures multiset(Insert(before, s, x)) == multiset(s) + multiset{x}
  {
    if s != [] {
      var init, last := s[..|s| - 1], s[|s| - 1];
      assert s == init + [last];
      InsertPermutes(before, init, x);
    }
  }

  lemma {:induction false} SortPermutes<T>(before: (T, T) -> bool, s: seq<T>)
    ensures multiset(Sort(before, s)) == multiset(s)
  {
    if s != [] {
      var init, last := s[..|s| - 1], s[|s| - 1];
      assert s == init + [last];
      SortPermutes(before, init);
      InsertPermutes(before, Sort(before, init), last);
    }
  }

  lemma {:induction false} InsertSorts<T(!new)>(before: (T, T) -> bool, s: seq<T>, x: T)
    requires WeakOrder(before) && Sorted(before, s)
    ensures Sorted(before, Insert(before, s, x))
  {
    if s == [] || !before(x, s[|s| - 1]) {
    } else {
      var init, last := s[..|s| - 1], s[|s| - 1];
      InsertSorts(before, init, x);
      var t := Insert(before, init, x);
      forall i | 0 <= i < |t| ensures !before(last, t[i]) {
        InsertPermutes(before, init, x);
        assert t[i] in multiset(t);
        assert t[i] in init || t[i] == x;
      }
    }
  }

  lemma {:induction false} SortSorts<T(!new)>(before: (T, T) -> bool, s: seq<T>)
    requires WeakOrder(before)
    ensures Sorted(before, Sort(before, s))
  {
    if s != [] {
      SortSorts(before, s[..|s| - 1]);
      InsertSorts(before, Sort(before, s[..|s| - 1]), s[|s| - 1]);
    }
  }

  // ---- Stability ----

  /** The elements of one class, in order. */
  function Only<T>(s: seq<T>, same: T -> bool): seq<T> {
    if s == [] then [] else Only(s[..|s| - 1], same) + if same(s[|s| - 1]) then [s[|s| - 1]] else []
  }

  lemma OnlyNext<T>(s: seq<T>, x: T, same: T -> bool)
    ensures Only(s + [x], same) == if same(x) then Only(s, same) + [x] else Only(s, same)
  {
    assert (s + [x])[..|s|] == s;
  }

  lemma {:induction false} InsertIsStable<T(!new)>(before: (T, T) -> bool, s: seq<T>, x: T, same: T -> bool)
    requires forall a, b | same(a) && same(b) :: !before(a, b)
    ensures Only(Insert(before, s, x), same) == Only(s + [x], same)
  {
    if s == [] || !before(x, s[|s| - 1]) {
    } else {
      var init, last := s[..|s| - 1], s[|s| - 1];
      assert s == init + [last];
      InsertIsStable(before, init, x, same);
      OnlyNext(Insert(before, init, x), last, same);
      OnlyNext(init, x, same);
      OnlyNext(init, last, same);
      OnlyNext(s, x, same);
    }
  }

  /** Elements that the comparison does not order stay in the order they were in. */
  lemma {:induction false} SortIsStable<T(!new)>(before: (T, T) -> bool, s: seq<T>, same: T -> bool)
    requires forall a, b | same(a) && same(b) :: !before(a, b)
    ensures Only(Sort(before, s), same) == Only(s, same)
  {
    if s != [] {
      var init, last := s[..|s| - 1], s[|s| - 1];
      assert s == init + [last];
      SortIsStable(before, init, same);
      InsertIsStable(before, Sort(before, init), last, same);
      OnlyNext(Sort(before, init), last, same);
      OnlyNext(init, last, same);
    }
  }

  // ---- Uniqueness ----

  lemma SameHead<T>(before: (T, T) -> bool, s: seq<T>, t: seq<T>)
    requires s != [] && multiset(s) == multiset(t)
    requires forall j | 0 < j < |s| :: before(s[0], s[j])
    requires forall j | 0 < j < |t| :: !before(t[j], t[0])
    ensures t != [] && t[0] == s[0]
  {
    assert s[0] in multiset(t);
    var m :| 0 <= m < |t| && t[m] == s[0];
    assert t[0] in multiset(s);
    var k :| 0 <= k < |s| && s[k] == t[0];
  }

  lemma SameTail<T>(s: seq<T>, t: seq<T>)
    requires s != [] && t != [] && s[0] == t[0] && multiset(s) == multiset(t)
    ensures multiset(s[1..]) == multiset(t[1..])
  {
    assert s == [s[0]] + s[1..] && t == [t[0]] + t[1..];
    assert multiset(s[1..]) == multiset(s) - multiset{s[0]};
    assert multiset(t[1..]) == multiset(t) - multiset{t[0]};
  }

  /** Where the comparison decides every pair, the sorted arrangement is unique. */
  lemma {:induction false} SortedIsUnique<T>(before: (T, T) -> bool, s: seq<T>, t: seq<T>)
    requires multiset(s) == multiset(t)
    requires forall i, j | 0 <= i < j < |s| :: before(s[i], s[j])
    requires Sorted(before, t)
    ensures s == t
  {
    if s == [] {
      assert |multiset(t)| == |t|;
    } else {
      SameHead(before, s, t);
      SameTail(s, t);
      SortedIsUnique(before, s[1..], t[1..]);
      assert s == [s[0]] + s[1..] && t == [t[0]] + t[1..];
    }
  }
}
