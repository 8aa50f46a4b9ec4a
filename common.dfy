/** Small shared vocabulary: optional values, results, filtering and sorting of sequences. */
module Common {

  datatype Option<+T> = None | Some(value: T)

  datatype Result<+T, +E> = Ok(value: T) | Err(error: E)

  /** The elements of `s` that satisfy `p`, in their original order (Array.prototype.filter). */
  function Keep<T(!new)>(s: seq<T>, p: T -> bool): (r: seq<T>)
    ensures |r| <= |s|
    ensures forall x :: x in r <==> x in s && p(x)
    ensures forall x :: multiset(r)[x] == if p(x) then multiset(s)[x] else 0
  {
    if s == [] then []
    else
      assert s == [s[0]] + s[1..];
      if p(s[0]) then [s[0]] + Keep(s[1..], p) else Keep(s[1..], p)
  }

  /** Filtering distributes over concatenation, so `Keep` keeps the relative order of what it keeps. */
  lemma {:induction false} KeepAppend<T(!new)>(a: seq<T>, b: seq<T>, p: T -> bool)
    ensures Keep(a + b, p) == Keep(a, p) + Keep(b, p)
  {
    if a == [] {
      assert a + b == b;
    } else {
      assert (a + b)[0] == a[0];
      assert (a + b)[1..] == a[1..] + b;
      KeepAppend(a[1..], b, p);
    }
  }

  /** Keeping everything changes nothing. */
  lemma {:induction false} KeepAll<T(!new)>(s: seq<T>, p: T -> bool)
    requires forall i :: 0 <= i < |s| ==> p(s[i])
    ensures Keep(s, p) == s
  {
    if s != [] {
      KeepAll(s[1..], p);
    }
  }

  /** A total preorder: every two elements are comparable and the relation is transitive. */
  ghost predicate TotalPreorder<T(!new)>(le: (T, T) -> bool)
  {
    && (forall a, b :: le(a, b) || le(b, a))
    && (forall a, b, c :: le(a, b) && le(b, c) ==> le(a, c))
  }

  predicate SortedBy<T>(s: seq<T>, le: (T, T) -> bool)
  {
    forall i, j :: 0 <= i < j < |s| ==> le(s[i], s[j])
  }

  /** An element that comes before every element of a sorted sequence can lead it. */
  lemma ConsSorted<T>(y: T, s: seq<T>, le: (T, T) -> bool)
    requires SortedBy(s, le)
    requires forall j :: 0 <= j < |s| ==> le(y, s[j])
    ensures SortedBy([y] + s, le)
  {
    var r := [y] + s;
    forall i, j | 0 <= i < j < |r| ensures le(r[i], r[j]) {
      if i == 0 {
        assert r[j] == s[j - 1];
      } else {
        assert r[i] == s[i - 1] && r[j] == s[j - 1];
      }
    }
  }

  /** Placing `x` before a sorted sequence whose head it does not come after keeps it sorted. */
  lemma InsertFrontSorted<T(!new)>(x: T, s: seq<T>, le: (T, T) -> bool)
    requires TotalPreorder(le) && SortedBy(s, le)
    requires s != [] && le(x, s[0])
    ensures SortedBy([x] + s, le)
  {
    forall j | 0 <= j < |s| ensures le(x, s[j]) {
      if j > 0 {
        assert le(s[0], s[j]);
      }
    }
    ConsSorted(x, s, le);
  }

  /** Keeping the head of a sorted sequence before a sorted insertion into its tail keeps it sorted. */
  lemma InsertBehindSorted<T(!new)>(x: T, s: seq<T>, rest: seq<T>, le: (T, T) -> bool)
    requires TotalPreorder(le) && SortedBy(s, le)
    requires s != [] && !le(x, s[0])
    requires SortedBy(rest, le) && multiset(rest) == multiset(s[1..]) + multiset{x}
    ensures SortedBy([s[0]] + rest, le)
  {
    forall j | 0 <= j < |rest| ensures le(s[0], rest[j]) {
      assert rest[j] in multiset(rest);
      if rest[j] != x {
        assert rest[j] in s[1..];
        var k :| 0 <= k < |s[1..]| && s[1..][k] == rest[j];
        assert s[k + 1] == rest[j];
      }
    }
    ConsSorted(s[0], rest, le);
  }

  /** Inserts `x` before the first element it does not come after; keeps a sorted sequence sorted. */
  function Insert<T(!new)>(x: T, s: seq<T>, le: (T, T) -> bool): (r: seq<T>)
    requires TotalPreorder(le)
    ensures multiset(r) == multiset(s) + multiset{x}
    ensures SortedBy(s, le) ==> SortedBy(r, le)
  {
    if s == [] then [x]
    else if le(x, s[0]) then
      assert SortedBy(s, le) ==> SortedBy([x] + s, le) by {
        if SortedBy(s, le) {
          InsertFrontSorted(x, s, le);
        }
      }
      [x] + s
    else
      var rest := Insert(x, s[1..], le);
      assert s == [s[0]] + s[1..];
      assert SortedBy(s, le) ==> SortedBy([s[0]] + rest, le) by {
        if SortedBy(s, le) {
          assert SortedBy(s[1..], le);
          InsertBehindSorted(x, s, rest, le);
        }
      }
      [s[0]] + rest
  }

  /** Sorts by `le`: the result is ordered and is a permutation of the input. */
  function SortBy<T(!new)>(s: seq<T>, le: (T, T) -> bool): (r: seq<T>)
    requires TotalPreorder(le)
    ensures SortedBy(r, le)
    ensures multiset(r) == multiset(s)
  {
    if s == [] then []
    else
      assert s == [s[0]] + s[1..];
      Insert(s[0], SortBy(s[1..], le), le)
  }

  /** Number of elements of `s` that satisfy `p`. */
  function CountIf<T(!new)>(s: seq<T>, p: T -> bool): (n: nat)
    ensures n == |Keep(s, p)|
    ensures n <= |s|
  {
    if s == [] then 0 else (if p(s[0]) then 1 else 0) + CountIf(s[1..], p)
  }
}
