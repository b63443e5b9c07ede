/** The list operations the pages build on: `filter`, and a stable sort by
    a comparator, standing for `Array.prototype.sort` with a comparator that
    returns a negative number exactly when `before(a, b)`. */
module Collections {

  /** A sort direction, `'asc'` or `'desc'`. */
  datatype Direction = Asc | Desc

  /** `s.filter(keep)`. */
  function Filter<T(!new)>(s: seq<T>, keep: T -> bool): (r: seq<T>)
    ensures |r| <= |s|
    ensures forall x :: x in r <==> x in s && keep(x)
  {
    if s == [] then []
    else if keep(s[0]) then [s[0]] + Filter(s[1..], keep)
    else Filter(s[1..], keep)
  }

  /** Filtering splits over concatenation, so the kept elements stay in order. */
  lemma {:induction false} FilterAppend<T(!new)>(a: seq<T>, b: seq<T>, keep: T -> bool)
    ensures Filter(a + b, keep) == Filter(a, keep) + Filter(b, keep)
  {
    if a == [] {
      assert a + b == b;
    } else {
      assert (a + b)[1..] == a[1..] + b;
      FilterAppend(a[1..], b, keep);
    }
  }

  /** A test every element passes keeps the whole sequence. */
  lemma {:induction false} FilterKeepsAll<T(!new)>(s: seq<T>, keep: T -> bool)
    requires forall i :: 0 <= i < |s| ==> keep(s[i])
    ensures Filter(s, keep) == s
  {
    if s != [] {
      FilterKeepsAll(s[1..], keep);
    }
  }

  /** A comparator that is consistent: never before itself, and transitive. */
  ghost predicate StrictOrder<T(!new)>(before: (T, T) -> bool)
  {
    && (forall a :: !before(a, a))
    && (forall a, b, c :: before(a, b) && before(b, c) ==> before(a, c))
  }

  /** No element is placed after one it should come before. */
  ghost predicate SortedBy<T>(s: seq<T>, before: (T, T) -> bool)
  {
    forall i, j :: 0 <= i < j < |s| ==> !before(s[j], s[i])
  }

  /** Insertion sort, taking the elements in their original order. */
  function SortBy<T>(s: seq<T>, before: (T, T) -> bool): (r: seq<T>)
    ensures multiset(r) == multiset(s)
    ensures |r| == |s|
  {
    if s == [] then []
    else
      assert s == s[..|s| - 1] + [s[|s| - 1]];
      Insert(s[|s| - 1], SortBy(s[..|s| - 1], before), before)
  }

  /** Where Insert puts `x`: at the first element it comes before. */
  function InsertPos<T>(x: T, s: seq<T>, before: (T, T) -> bool): (k: nat)
    ensures k <= |s|
    ensures forall i :: 0 <= i < k ==> !before(x, s[i])
    ensures k < |s| ==> before(x, s[k])
  {
    if s == [] || before(x, s[0]) then 0 else 1 + InsertPos(x, s[1..], before)
  }

  /** Filtering twice is filtering once by a test that holds exactly when both do. */
  lemma {:induction false} FilterFilter<T(!new)>(s: seq<T>, p: T -> bool, q: T -> bool, both: T -> bool)
    requires forall x :: both(x) == (p(x) && q(x))
    ensures Filter(Filter(s, p), q) == Filter(s, both)
  {
    if s != [] {
      FilterFilter(s[1..], p, q, both);
      if p(s[0]) {
        assert Filter(s, p)[1..] == Filter(s[1..], p);
      }
    }
  }

  /** Inserts `x` before the first element it comes before, so after every
      element it is level with. */
  function Insert<T>(x: T, s: seq<T>, before: (T, T) -> bool): (r: seq<T>)
    ensures multiset(r) == multiset(s) + multiset{x}
    ensures |r| == |s| + 1
  {
    var k := InsertPos(x, s, before);
    assert s == s[..k] + s[k..];
    s[..k] + [x] + s[k..]
  }

  lemma InsertSorted<T(!new)>(x: T, s: seq<T>, before: (T, T) -> bool)
    requires StrictOrder(before)
    requires SortedBy(s, before)
    ensures SortedBy(Insert(x, s, before), before)
  {
    var k := InsertPos(x, s, before);
    var r := Insert(x, s, before);
    forall i, j | 0 <= i < j < |r|
      ensures !before(r[j], r[i])
    {
      if j < k {
        assert r[i] == s[i] && r[j] == s[j];
      } else if j == k {
        assert r[i] == s[i] && r[j] == x;
      } else if i == k {
        assert r[i] == x && r[j] == s[j - 1];
      } else if i < k {
        assert r[i] == s[i] && r[j] == s[j - 1];
      } else {
        assert r[i] == s[i - 1] && r[j] == s[j - 1];
      }
    }
  }

  /** The result is sorted whenever the comparator is consistent. */
  lemma {:induction false} SortBySorted<T(!new)>(s: seq<T>, before: (T, T) -> bool)
    requires StrictOrder(before)
    ensures SortedBy(SortBy(s, before), before)
  {
    if s != [] {
      SortBySorted(s[..|s| - 1], before);
      InsertSorted(s[|s| - 1], SortBy(s[..|s| - 1], before), before);
    }
  }

  /** The elements `level` picks compare alike: whatever one of them comes
      before, every other one does too. */
  ghost predicate LevelWith<T(!new)>(before: (T, T) -> bool, level: T -> bool)
  {
    forall a, b, c :: level(a) && level(b) && before(a, c) ==> before(b, c)
  }

  /** A test no element passes keeps nothing. */
  lemma {:induction false} FilterDropsAll<T(!new)>(s: seq<T>, keep: T -> bool)
    requires forall i :: 0 <= i < |s| ==> !keep(s[i])
    ensures Filter(s, keep) == []
  {
    if s != [] {
      FilterDropsAll(s[1..], keep);
    }
  }

  /** In a sorted sequence, nothing level with `x` sits at or after the first
      element `x` comes before. */
  lemma NoneLevelAfter<T(!new)>(x: T, t: seq<T>, k: nat, before: (T, T) -> bool, level: T -> bool)
    requires forall a :: !before(a, a)
    requires LevelWith(before, level)
    requires SortedBy(t, before)
    requires k < |t| && before(x, t[k]) && level(x)
    ensures forall j :: k <= j < |t| ==> !level(t[j])
  {
    forall j | k <= j < |t|
      ensures !level(t[j])
    {
      assert !before(t[j], t[k]);
    }
  }

  /** Filtering an insertion filters the part before the insertion point,
      then `x`, then the part after. */
  lemma FilterInsert<T(!new)>(x: T, t: seq<T>, before: (T, T) -> bool, level: T -> bool, k: nat)
    requires k == InsertPos(x, t, before)
    ensures Filter(Insert(x, t, before), level) == Filter(t[..k], level) + Filter([x], level) + Filter(t[k..], level)
    ensures Filter(t, level) == Filter(t[..k], level) + Filter(t[k..], level)
  {
    assert t == t[..k] + t[k..];
    assert Insert(x, t, before) == (t[..k] + [x]) + t[k..];
    FilterAppend(t[..k] + [x], t[k..], level);
    FilterAppend(t[..k], [x], level);
    FilterAppend(t[..k], t[k..], level);
  }

  /** Inserting `x` puts it after every element before its insertion
      point; when nothing `level` picks follows that point, `x` lands last
      among them. */
  lemma InsertStable<T(!new)>(x: T, t: seq<T>, before: (T, T) -> bool, level: T -> bool)
    requires level(x) ==> forall j :: InsertPos(x, t, before) <= j < |t| ==> !level(t[j])
    ensures Filter(Insert(x, t, before), level) == Filter(t, level) + Filter([x], level)
  {
    var k := InsertPos(x, t, before);
    var back := t[k..];
    FilterInsert(x, t, before, level, k);
    var a, b := Filter(t[..k], level), Filter(back, level);
    if level(x) {
      forall i | 0 <= i < |back|
        ensures !level(back[i])
      {
        assert back[i] == t[k + i];
      }
      FilterDropsAll(back, level);
      AppendEmpty(a, b);
      AppendEmpty(a + Filter([x], level), b);
    } else {
      assert Filter([x], level) == [];
      AppendEmpty(a, Filter([x], level));
      AppendEmpty(a + b, Filter([x], level));
    }
  }

  /** Appending the empty sequence changes nothing. */
  lemma AppendEmpty<T>(a: seq<T>, e: seq<T>)
    requires e == []
    ensures a + e == a
  {
  }

  /** The sort is stable: elements the comparator ranks level with one
      another come out in the order they went in. */
  lemma {:induction false} SortByStable<T(!new)>(s: seq<T>, before: (T, T) -> bool, level: T -> bool)
    requires StrictOrder(before)
    requires LevelWith(before, level)
    ensures Filter(SortBy(s, before), level) == Filter(s, level)
  {
    if s != [] {
      var init, x := s[..|s| - 1], s[|s| - 1];
      assert s == init + [x];
      SortByStable(init, before, level);
      SortBySorted(init, before);
      var t := SortBy(init, before);
      var k := InsertPos(x, t, before);
      if level(x) && k < |t| {
        NoneLevelAfter(x, t, k, before, level);
      }
      InsertStable(x, t, before, level);
      FilterAppend(init, [x], level);
    }
  }
}
