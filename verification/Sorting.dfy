/**
  Text order, stable sorting by a text key, and removal of adjacent duplicates:
  what `Array.sort` with a `<` comparator and the neighbour filter compute.
 */
module Sorting {

  /** `a < b` on strings: the first differing character decides, a proper prefix is smaller. */
  predicate Less(a: string, b: string) {
    if b == "" then false
    else if a == "" then true
    else if a[0] != b[0] then a[0] < b[0]
    else Less(a[1..], b[1..])
  }

  lemma {:induction false} LessIrreflexive(a: string)
    ensures !Less(a, a)
  {
    if a != "" {
      LessIrreflexive(a[1..]);
    }
  }

  lemma {:induction false} LessTransitive(a: string, b: string, c: string)
    requires Less(a, b) && Less(b, c)
    ensures Less(a, c)
  {
    if a != "" && a[0] == b[0] && b[0] == c[0] {
      LessTransitive(a[1..], b[1..], c[1..]);
    }
  }

  lemma {:induction false} LessTotal(a: string, b: string)
    ensures Less(a, b) || a == b || Less(b, a)
  {
    if a != "" && b != "" && a[0] == b[0] {
      LessTotal(a[1..], b[1..]);
      assert a == [a[0]] + a[1..] && b == [b[0]] + b[1..];
    }
  }

  /** Keys never decrease. */
  ghost predicate SortedBy<T(!new)>(key: T -> string, xs: seq<T>) {
    forall i, j :: 0 <= i < j < |xs| ==> !Less(key(xs[j]), key(xs[i]))
  }

  /** Keys strictly increase. */
  ghost predicate StrictBy<T(!new)>(key: T -> string, xs: seq<T>) {
    forall i, j :: 0 <= i < j < |xs| ==> Less(key(xs[i]), key(xs[j]))
  }

  ghost predicate InjectiveKey<T(!new)>(key: T -> string) {
    forall x, y :: key(x) == key(y) ==> x == y
  }

  function Insert<T>(key: T -> string, x: T, xs: seq<T>): seq<T> {
    if xs == [] then [x]
    else if Less(key(xs[0]), key(x)) then [xs[0]] + Insert(key, x, xs[1..])
    else [x] + xs
  }

  /** Stable: an element is placed before later elements of the same key. */
  function Sort<T>(key: T -> string, xs: seq<T>): seq<T> {
    if xs == [] then [] else Insert(key, xs[0], Sort(key, xs[1..]))
  }

  lemma {:induction false} InsertContents<T(!new)>(key: T -> string, x: T, xs: seq<T>)
    ensures multiset(Insert(key, x, xs)) == multiset{x} + multiset(xs)
  {
    if xs != [] {
      assert xs == [xs[0]] + xs[1..];
      if Less(key(xs[0]), key(x)) {
        InsertContents(key, x, xs[1..]);
      }
    }
  }

  lemma {:induction false} SortContents<T(!new)>(key: T -> string, xs: seq<T>)
    ensures multiset(Sort(key, xs)) == multiset(xs)
    ensures |Sort(key, xs)| == |xs|
  {
    if xs != [] {
      SortContents(key, xs[1..]);
      InsertContents(key, xs[0], Sort(key, xs[1..]));
      assert xs == [xs[0]] + xs[1..];
    }
    assert |multiset(Sort(key, xs))| == |Sort(key, xs)| && |multiset(xs)| == |xs|;
  }

  lemma {:induction false} SameMembers<T(!new)>(xs: seq<T>, ys: seq<T>)
    requires multiset(xs) == multiset(ys)
    ensures forall x :: x in xs <==> x in ys
  {
    forall x ensures x in xs <==> x in ys {
      assert x in xs <==> x in multiset(xs);
      assert x in ys <==> x in multiset(ys);
    }
  }

  lemma {:induction false} InsertSorted<T(!new)>(key: T -> string, x: T, xs: seq<T>)
    requires SortedBy(key, xs)
    ensures SortedBy(key, Insert(key, x, xs))
  {
    if xs != [] {
      var rest := Insert(key, x, xs[1..]);
      if Less(key(xs[0]), key(x)) {
        InsertSorted(key, x, xs[1..]);
        InsertContents(key, x, xs[1..]);
        SameMembers(rest, [x] + xs[1..]);
        forall j | 0 <= j < |rest| ensures !Less(key(rest[j]), key(xs[0])) {
          assert rest[j] in [x] + xs[1..];
          if rest[j] == x {
            if Less(key(x), key(xs[0])) {
              LessTransitive(key(xs[0]), key(x), key(xs[0]));
              LessIrreflexive(key(xs[0]));
            }
          } else {
            var k :| 0 <= k < |xs[1..]| && xs[1..][k] == rest[j];
            assert xs[k + 1] == rest[j];
          }
        }
      } else {
        forall j | 0 <= j < |xs| ensures !Less(key(xs[j]), key(x)) {
          if Less(key(xs[j]), key(x)) {
            LessTotal(key(xs[0]), key(xs[j]));
            if key(xs[0]) != key(xs[j]) {
              assert j > 0;
              LessTransitive(key(xs[0]), key(xs[j]), key(x));
            }
          }
        }
      }
    }
  }

  lemma {:induction false} SortSorted<T(!new)>(key: T -> string, xs: seq<T>)
    ensures SortedBy(key, Sort(key, xs))
  {
    if xs != [] {
      SortSorted(key, xs[1..]);
      InsertSorted(key, xs[0], Sort(key, xs[1..]));
    }
  }

  lemma {:induction false} SortFixpoint<T(!new)>(key: T -> string, xs: seq<T>)
    requires SortedBy(key, xs)
    ensures Sort(key, xs) == xs
  {
    if xs != [] {
      SortFixpoint(key, xs[1..]);
      if |xs| > 1 {
        assert !Less(key(xs[1]), key(xs[0]));
      }
    }
  }

  /** With an injective key the order of a sorted sequence leaves no choice. */
  lemma {:induction false} OneSortedOrder<T(!new)>(key: T -> string, xs: seq<T>, ys: seq<T>)
    requires InjectiveKey(key) && SortedBy(key, xs) && SortedBy(key, ys)
    requires multiset(xs) == multiset(ys)
    ensures xs == ys
    decreases |xs|
  {
    SameMembers(xs, ys);
    if xs != [] {
      assert xs[0] in ys;
      SortedFirst(key, xs, ys);
      SortedFirst(key, ys, xs);
      LessTotal(key(xs[0]), key(ys[0]));
      RemoveFirst(xs);
      RemoveFirst(ys);
      OneSortedOrder(key, xs[1..], ys[1..]);
    }
  }

  lemma {:induction false} RemoveFirst<T>(xs: seq<T>)
    requires xs != []
    ensures multiset(xs[1..]) == multiset(xs) - multiset{xs[0]}
    ensures xs == [xs[0]] + xs[1..]
  {
    assert xs == [xs[0]] + xs[1..];
  }

  lemma {:induction false} RemoveAt<T>(xs: seq<T>, i: nat)
    requires i < |xs|
    ensures multiset(xs[..i] + xs[i + 1..]) == multiset(xs) - multiset{xs[i]}
  {
    assert xs == xs[..i] + ([xs[i]] + xs[i + 1..]);
  }

  /** Take an element out of one of two sequences with the same contents. */
  lemma {:induction false} PullOut<T(!new)>(xs: seq<T>, ys: seq<T>) returns (i: nat, rest: seq<T>)
    requires xs != [] && multiset(xs) == multiset(ys)
    ensures i < |ys| && ys[i] == xs[0] && rest == ys[..i] + ys[i + 1..]
    ensures multiset(xs[1..]) == multiset(rest)
  {
    SameMembers(xs, ys);
    assert xs[0] in ys;
    i :| 0 <= i < |ys| && ys[i] == xs[0];
    rest := ys[..i] + ys[i + 1..];
    RemoveFirst(xs);
    RemoveAt(ys, i);
  }

  lemma {:induction false} SortedFirst<T(!new)>(key: T -> string, xs: seq<T>, ys: seq<T>)
    requires xs != [] && ys != [] && SortedBy(key, xs) && ys[0] in xs
    ensures !Less(key(ys[0]), key(xs[0]))
  {
    var i :| 0 <= i < |xs| && xs[i] == ys[0];
    LessIrreflexive(key(xs[0]));
  }

  /** Sorting forgets the order of its input. */
  lemma {:induction false} SortPermutation<T(!new)>(key: T -> string, xs: seq<T>, ys: seq<T>)
    requires InjectiveKey(key) && multiset(xs) == multiset(ys)
    ensures Sort(key, xs) == Sort(key, ys)
  {
    SortContents(key, xs);
    SortContents(key, ys);
    SortSorted(key, xs);
    SortSorted(key, ys);
    OneSortedOrder(key, Sort(key, xs), Sort(key, ys));
  }

  /** Drop an element whose key equals its left neighbour's. */
  function Dedup<T>(key: T -> string, xs: seq<T>): seq<T>
    decreases |xs|
  {
    if |xs| <= 1 then xs
    else if key(xs[0]) == key(xs[1]) then Dedup(key, [xs[0]] + xs[2..])
    else [xs[0]] + Dedup(key, xs[1..])
  }

  /** What is left was there, and the first element stays. */
  lemma {:induction false} DedupFrom<T(!new)>(key: T -> string, xs: seq<T>)
    ensures forall x :: x in Dedup(key, xs) ==> x in xs
    ensures xs != [] ==> Dedup(key, xs) != [] && Dedup(key, xs)[0] == xs[0]
    decreases |xs|
  {
    if |xs| > 1 {
      if key(xs[0]) == key(xs[1]) {
        DedupFrom(key, [xs[0]] + xs[2..]);
        assert xs == [xs[0], xs[1]] + xs[2..];
      } else {
        DedupFrom(key, xs[1..]);
        assert xs == [xs[0]] + xs[1..];
      }
    }
  }

  lemma {:induction false} DedupMembers<T(!new)>(key: T -> string, xs: seq<T>)
    requires InjectiveKey(key)
    ensures forall x :: x in Dedup(key, xs) <==> x in xs
    decreases |xs|
  {
    DedupFrom(key, xs);
    if |xs| > 1 {
      if key(xs[0]) == key(xs[1]) {
        assert xs[0] == xs[1];
        DedupMembers(key, [xs[0]] + xs[2..]);
        assert xs == [xs[0], xs[1]] + xs[2..];
      } else {
        DedupMembers(key, xs[1..]);
        assert xs == [xs[0]] + xs[1..];
      }
    }
  }

  lemma {:induction false} DedupStrict<T(!new)>(key: T -> string, xs: seq<T>)
    requires SortedBy(key, xs)
    ensures StrictBy(key, Dedup(key, xs))
    decreases |xs|
  {
    if |xs| > 1 {
      if key(xs[0]) == key(xs[1]) {
        DedupStrict(key, [xs[0]] + xs[2..]);
      } else {
        var rest := Dedup(key, xs[1..]);
        DedupStrict(key, xs[1..]);
        DedupFrom(key, xs[1..]);
        assert rest[0] == xs[1];
        LessTotal(key(xs[0]), key(xs[1]));
        forall j | 0 <= j < |rest| ensures Less(key(xs[0]), key(rest[j])) {
          if j > 0 {
            LessTransitive(key(xs[0]), key(rest[0]), key(rest[j]));
          }
        }
      }
    }
  }

  lemma {:induction false} DedupFixpoint<T(!new)>(key: T -> string, xs: seq<T>)
    requires StrictBy(key, xs)
    ensures Dedup(key, xs) == xs
    decreases |xs|
  {
    if |xs| > 1 {
      assert Less(key(xs[0]), key(xs[1]));
      LessIrreflexive(key(xs[0]));
      DedupFixpoint(key, xs[1..]);
    }
  }

  lemma {:induction false} StrictIsSorted<T(!new)>(key: T -> string, xs: seq<T>)
    requires StrictBy(key, xs)
    ensures SortedBy(key, xs)
  {
    forall i, j | 0 <= i < j < |xs| ensures !Less(key(xs[j]), key(xs[i])) {
      if Less(key(xs[j]), key(xs[i])) {
        LessTransitive(key(xs[i]), key(xs[j]), key(xs[i]));
        LessIrreflexive(key(xs[i]));
      }
    }
  }

  /** A strictly sorted sequence is determined by its set of elements. */
  lemma {:induction false} StrictUnique<T(!new)>(key: T -> string, xs: seq<T>, ys: seq<T>)
    requires StrictBy(key, xs) && StrictBy(key, ys)
    requires forall x :: x in xs <==> x in ys
    ensures xs == ys
    decreases |xs|
  {
    Inhabited(ys);
    if xs != [] {
      assert xs[0] in ys;
      assert ys[0] in xs;
      StrictIsSorted(key, xs);
      StrictIsSorted(key, ys);
      StrictHead(key, xs, ys);
      assert xs[0] == ys[0];
      StrictTail(key, xs, ys);
      StrictUnique(key, xs[1..], ys[1..]);
      assert xs == [xs[0]] + xs[1..] && ys == [ys[0]] + ys[1..];
    }
  }

  lemma {:induction false} Inhabited<T(!new)>(xs: seq<T>)
    ensures xs == [] || xs[0] in xs
  {
  }

  lemma {:induction false} StrictHead<T(!new)>(key: T -> string, xs: seq<T>, ys: seq<T>)
    requires StrictBy(key, xs) && StrictBy(key, ys) && xs != [] && ys != []
    requires xs[0] in ys && ys[0] in xs
    ensures xs[0] == ys[0]
  {
    var i :| 0 <= i < |xs| && xs[i] == ys[0];
    var j :| 0 <= j < |ys| && ys[j] == xs[0];
    if i > 0 && j > 0 {
      LessTransitive(key(xs[0]), key(xs[i]), key(xs[0]));
      LessIrreflexive(key(xs[0]));
    }
  }

  lemma {:induction false} StrictTail<T(!new)>(key: T -> string, xs: seq<T>, ys: seq<T>)
    requires StrictBy(key, xs) && StrictBy(key, ys) && xs != [] && ys != [] && xs[0] == ys[0]
    requires forall x :: x in xs <==> x in ys
    ensures forall x :: x in xs[1..] <==> x in ys[1..]
  {
    forall x ensures x in xs[1..] <==> x in ys[1..] {
      LessIrreflexive(key(xs[0]));
      assert x in xs <==> x in ys;
      if x in xs[1..] {
        var i :| 0 <= i < |xs[1..]| && xs[1..][i] == x;
        assert Less(key(xs[0]), key(xs[i + 1]));
        assert x in xs;
        var j :| 0 <= j < |ys| && ys[j] == x;
        assert j > 0 && ys[1..][j - 1] == x;
      }
      if x in ys[1..] {
        var i :| 0 <= i < |ys[1..]| && ys[1..][i] == x;
        assert Less(key(ys[0]), key(ys[i + 1]));
        assert x in ys;
        var j :| 0 <= j < |xs| && xs[j] == x;
        assert j > 0 && xs[1..][j - 1] == x;
      }
    }
  }

  /** Sort-and-dedup forgets both order and repetition. */
  lemma {:induction false} SortDedupSet<T(!new)>(key: T -> string, xs: seq<T>, ys: seq<T>)
    requires InjectiveKey(key)
    requires forall x :: x in xs <==> x in ys
    ensures Dedup(key, Sort(key, xs)) == Dedup(key, Sort(key, ys))
  {
    SortDedupSpec(key, xs);
    SortDedupSpec(key, ys);
    StrictUnique(key, Dedup(key, Sort(key, xs)), Dedup(key, Sort(key, ys)));
  }

  lemma {:induction false} SortDedupSpec<T(!new)>(key: T -> string, xs: seq<T>)
    requires InjectiveKey(key)
    ensures StrictBy(key, Dedup(key, Sort(key, xs)))
    ensures forall x :: x in Dedup(key, Sort(key, xs)) <==> x in xs
  {
    SortContents(key, xs);
    SameMembers(Sort(key, xs), xs);
    SortSorted(key, xs);
    DedupStrict(key, Sort(key, xs));
    DedupMembers(key, Sort(key, xs));
  }
}
