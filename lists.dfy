/** The JavaScript array and set built-ins the application relies on
    (Array.prototype.find, findIndex, filter, and de-duplication through
    `new Set`), stated once and shared by every other module. */
module Lists {

  datatype Option<+T> = None | Some(value: T)

  /** Array.prototype.findIndex: the index of the first element that satisfies
      `p`, or -1 when none does. */
  function FindIndex<T>(s: seq<T>, p: T -> bool): (r: int)
    ensures -1 <= r < |s|
    ensures r == -1 <==> forall i :: 0 <= i < |s| ==> !p(s[i])
    ensures 0 <= r ==> p(s[r]) && forall i :: 0 <= i < r ==> !p(s[i])
  {
    if s == [] then -1
    else if p(s[0]) then 0
    else
      var r := FindIndex(s[1..], p);
      if r == -1 then -1 else r + 1
  }

  /** Array.prototype.find: the first element that satisfies `p`, if any. */
  function Find<T>(s: seq<T>, p: T -> bool): (r: Option<T>)
    ensures r.None? <==> forall i :: 0 <= i < |s| ==> !p(s[i])
    ensures r.Some? ==> p(r.value) && r.value in s
  {
    if s == [] then None
    else if p(s[0]) then Some(s[0])
    else Find(s[1..], p)
  }

  /** `find` and `findIndex` stop at the same element: the one `find` returns
      sits at the index `findIndex` returns. */
  lemma {:induction false} FindAgreesWithFindIndex<T>(s: seq<T>, p: T -> bool)
    ensures FindIndex(s, p) == -1 ==> Find(s, p) == None
    ensures FindIndex(s, p) >= 0 ==> Find(s, p) == Some(s[FindIndex(s, p)])
  {
    if s != [] && !p(s[0]) {
      FindAgreesWithFindIndex(s[1..], p);
    }
  }

  /** Array.prototype.filter. */
  function Filter<T>(s: seq<T>, p: T -> bool): (r: seq<T>)
    ensures |r| <= |s|
    ensures forall i :: 0 <= i < |r| ==> p(r[i])
  {
    if s == [] then []
    else (if p(s[0]) then [s[0]] else []) + Filter(s[1..], p)
  }

  /** Filtering keeps every element that satisfies `p` as often as it occurs,
      and drops every other. */
  lemma {:induction false} FilterMultiset<T>(s: seq<T>, p: T -> bool)
    ensures forall x :: multiset(Filter(s, p))[x] == if p(x) then multiset(s)[x] else 0
  {
    if s != [] {
      FilterMultiset(s[1..], p);
      assert s == [s[0]] + s[1..];
    }
  }

  lemma FilterCons<T>(s: seq<T>, p: T -> bool)
    requires s != []
    ensures Filter(s, p) == (if p(s[0]) then [s[0]] else []) + Filter(s[1..], p)
  {
  }

  /** Filtering keeps the original order: it distributes over concatenation. */
  lemma {:induction false} FilterDistributes<T>(a: seq<T>, b: seq<T>, p: T -> bool)
    ensures Filter(a + b, p) == Filter(a, p) + Filter(b, p)
  {
    if a == [] {
      assert a + b == b;
    } else {
      assert (a + b)[0] == a[0] && (a + b)[1..] == a[1..] + b;
      var head := if p(a[0]) then [a[0]] else [];
      calc {
        Filter(a + b, p);
        { FilterCons(a + b, p); }
        head + Filter(a[1..] + b, p);
        { FilterDistributes(a[1..], b, p); }
        head + (Filter(a[1..], p) + Filter(b, p));
        (head + Filter(a[1..], p)) + Filter(b, p);
        { FilterCons(a, p); }
        Filter(a, p) + Filter(b, p);
      }
    }
  }

  predicate NoDuplicates<T(==,!new)>(s: seq<T>) {
    forall i, j :: 0 <= i < j < |s| ==> s[i] != s[j]
  }

  /** `[...new Set(s)]`: the elements of `s` without repetitions, each at the
      place of its first occurrence. */
  function Dedup<T(==,!new)>(s: seq<T>): (r: seq<T>)
    ensures NoDuplicates(r)
    ensures forall x :: x in r <==> x in s
    decreases |s|
  {
    if s == [] then []
    else
      var d := Dedup(s[..|s| - 1]);
      assert forall x :: x in s <==> x in s[..|s| - 1] || x == s[|s| - 1] by {
        assert s == s[..|s| - 1] + [s[|s| - 1]];
      }
      if s[|s| - 1] in d then d else d + [s[|s| - 1]]
  }

  /** The index of the first occurrence of `x`, or -1 when `x` does not
      occur: the position by which a Set orders its insertions. */
  function IndexOf<T(==)>(s: seq<T>, x: T): (r: int)
    ensures -1 <= r < |s|
    ensures r == -1 <==> x !in s
    ensures 0 <= r ==> s[r] == x && x !in s[..r]
  {
    if s == [] then -1
    else if s[0] == x then 0
    else
      var r := IndexOf(s[1..], x);
      assert r >= 0 ==> s[..r + 1] == [s[0]] + s[1..][..r];
      if r == -1 then -1 else r + 1
  }

  /** The elements of `r` occur in `s`, in the order of their first
      occurrences there. */
  ghost predicate InFirstOccurrenceOrder<T>(r: seq<T>, s: seq<T>) {
    forall i, j :: 0 <= i < j < |r| ==> 0 <= IndexOf(s, r[i]) < IndexOf(s, r[j])
  }

  /** An element occurring in a prefix has its first occurrence there. */
  lemma IndexOfPrefix<T>(s: seq<T>, last: T, x: T)
    requires x in s
    ensures IndexOf(s + [last], x) == IndexOf(s, x)
  {
    var k, t := IndexOf(s, x), s + [last];
    assert t[..k] == s[..k];
    assert t[k] == x;
  }

  /** One step of `Dedup`: extending the input keeps the order of what was
      already collected, and a new element goes after all of it. */
  lemma OrderStep<T>(d: seq<T>, init: seq<T>, last: T)
    requires InFirstOccurrenceOrder(d, init)
    requires forall x :: x in d ==> x in init
    ensures InFirstOccurrenceOrder(d, init + [last])
    ensures last !in init ==> InFirstOccurrenceOrder(d + [last], init + [last])
  {
    var s := init + [last];
    forall x | x in d
      ensures 0 <= IndexOf(s, x) == IndexOf(init, x) < |init|
    {
      IndexOfPrefix(init, last, x);
    }
    forall i, j | 0 <= i < j < |d|
      ensures 0 <= IndexOf(s, d[i]) < IndexOf(s, d[j])
    {
      assert d[i] in d && d[j] in d;
    }
    if last !in init {
      assert IndexOf(s, last) == |init| by {
        assert s[..|init|] == init;
      }
      var r := d + [last];
      forall i, j | 0 <= i < j < |r|
        ensures 0 <= IndexOf(s, r[i]) < IndexOf(s, r[j])
      {
        assert r[i] == d[i] && r[i] in d;
        if j < |d| {
          assert r[j] == d[j];
        }
      }
    }
  }

  /** `[...new Set(s)]` keeps insertion order: the elements come out in the
      order of their first occurrences in `s`. */
  lemma {:induction false} DedupKeepsFirstOccurrenceOrder<T(!new)>(s: seq<T>)
    ensures InFirstOccurrenceOrder(Dedup(s), s)
    decreases |s|
  {
    if s != [] {
      var init, last := s[..|s| - 1], s[|s| - 1];
      assert s == init + [last];
      DedupKeepsFirstOccurrenceOrder(init);
      OrderStep(Dedup(init), init, last);
    }
  }

  /** A sequence that already has no repetitions is left as it is. */
  lemma {:induction false} DedupOfDistinct<T(!new)>(s: seq<T>)
    requires NoDuplicates(s)
    ensures Dedup(s) == s
  {
    if s != [] {
      var init := s[..|s| - 1];
      assert NoDuplicates(init);
      DedupOfDistinct(init);
      assert s[|s| - 1] !in init;
      assert s == init + [s[|s| - 1]];
    }
  }

  /** Past the head of a list, an element of the tail that is not the head
      occurs first one place further than in the tail. */
  lemma IndexOfPastHead<T>(s: seq<T>, x: T)
    requires s != [] && x in s[1..] && x != s[0]
    ensures IndexOf(s, x) == IndexOf(s[1..], x) + 1
  {
    var k := IndexOf(s[1..], x);
    assert k >= 0;
  }

  /** A list ordered by first occurrences in the tail of `s`, and avoiding the
      head of `s`, is ordered by first occurrences in `s`. */
  lemma OrderPastHead<T>(t: seq<T>, s: seq<T>)
    requires s != []
    requires forall i :: 0 <= i < |t| ==> t[i] in s[1..] && t[i] != s[0]
    requires InFirstOccurrenceOrder(t, s[1..])
    ensures InFirstOccurrenceOrder(t, s)
    ensures forall i :: 0 <= i < |t| ==> 1 <= IndexOf(s, t[i])
  {
    forall i | 0 <= i < |t|
      ensures IndexOf(s, t[i]) == IndexOf(s[1..], t[i]) + 1 >= 1
    {
      IndexOfPastHead(s, t[i]);
    }
  }

  /** With the head of `s` put in front, such a list stays ordered. */
  lemma OrderHeadFirst<T>(t: seq<T>, s: seq<T>)
    requires s != []
    requires InFirstOccurrenceOrder(t, s)
    requires forall i :: 0 <= i < |t| ==> 1 <= IndexOf(s, t[i])
    ensures InFirstOccurrenceOrder([s[0]] + t, s)
  {
    var u := [s[0]] + t;
    assert IndexOf(s, s[0]) == 0;
    assert forall j :: 1 <= j < |u| ==> u[j] == t[j - 1];
    forall i, j | 0 <= i < j < |u|
      ensures 0 <= IndexOf(s, u[i]) < IndexOf(s, u[j])
    {
      if i > 0 {
        assert 0 <= IndexOf(s, t[i - 1]) < IndexOf(s, t[j - 1]);
      } else {
        assert 1 <= IndexOf(s, t[j - 1]);
      }
    }
  }

  /** One step of a batch: what the head contributes (itself or nothing)
      followed by an ordered list avoiding the head is ordered by `s`. */
  lemma OrderStepOfBatch<T>(added: seq<T>, head: seq<T>, tail: seq<T>, s: seq<T>)
    requires s != []
    requires added == head + tail && (head == [] || head == [s[0]])
    requires forall i :: 0 <= i < |tail| ==> tail[i] in s[1..] && tail[i] != s[0]
    requires InFirstOccurrenceOrder(tail, s[1..])
    ensures InFirstOccurrenceOrder(added, s)
  {
    OrderPastHead(tail, s);
    if head == [] {
      assert added == tail;
    } else {
      OrderHeadFirst(tail, s);
    }
  }

  /** Past a prefix it extends, a list splits into the rest of the prefix and
      what follows it. */
  lemma SliceAfterPrefix<T>(r: seq<T>, p: seq<T>, k: int)
    requires 0 <= k <= |p| <= |r| && r[..|p|] == p
    ensures r[k..] == p[k..] + r[|p|..]
  {
    assert r[k..] == r[k..|p|] + r[|p|..];
    assert r[k..|p|] == r[..|p|][k..];
  }
}
