/** Stable sorting by a strict order on keys, and when its outcome ignores the input order. */
module StableSort {
  /** Lexicographic order of the characters. String comparison in the program goes by UTF-16 code
      units, which is the same order on strings without characters beyond U+FFFF. */
  predicate Before(a: string, b: string) {
    b != "" && (a == "" || a[0] < b[0] || (a[0] == b[0] && Before(a[1..], b[1..])))
  }

  lemma {:induction false} BeforeIsOrder(a: string, b: string, c: string)
    ensures Before(a, b) && Before(b, c) ==> Before(a, c)
    ensures !(Before(a, b) && Before(b, a))
    ensures !Before(a, b) && !Before(b, a) ==> a == b
  {
    if a != "" && b != "" && a[0] == b[0] {
      BeforeIsOrder(a[1..], b[1..], if c == "" then "" else c[1..]);
      assert a == [a[0]] + a[1..] && b == [b[0]] + b[1..];
    }
  }

  /** Irreflexive and transitive, with incomparability transitive too. */
  ghost predicate WeakOrder<T(!new)>(before: (T, T) -> bool) {
    && (forall x, y :: before(x, y) ==> !before(y, x))
    && (forall x, y, z :: before(x, z) ==> before(x, y) || before(y, z))
  }

  predicate Sorted<T>(before: (T, T) -> bool, s: seq<T>) {
    forall i, j :: 0 <= i < j < |s| ==> !before(s[j], s[i])
  }

  function Insert<T>(before: (T, T) -> bool, x: T, s: seq<T>): seq<T> {
    if s == [] || !before(x, s[|s|-1]) then s + [x] else Insert(before, x, s[..|s|-1]) + [s[|s|-1]]
  }

  function Sort<T>(before: (T, T) -> bool, s: seq<T>): seq<T> {
    if s == [] then [] else Insert(before, s[|s|-1], Sort(before, s[..|s|-1]))
  }

  lemma Splits<T(!new)>(before: (T, T) -> bool, x: T, y: T, z: T)
    requires WeakOrder(before)
    ensures before(x, z) ==> before(x, y) || before(y, z)
    ensures before(x, y) ==> !before(y, x)
  {
  }

  lemma {:induction false} InsertSorts<T(!new)>(before: (T, T) -> bool, x: T, s: seq<T>)
    requires WeakOrder(before) && Sorted(before, s)
    ensures Sorted(before, Insert(before, x, s)) && multiset(Insert(before, x, s)) == multiset(s) + multiset{x}
  {
    hide WeakOrder;
    if s != [] {
      var init, last := s[..|s|-1], s[|s|-1];
      assert s == init + [last];
      if before(x, last) {
        InsertSorts(before, x, init);
        Splits(before, x, last, x);
        InsertIntoBelow(before, x, init, last);
      } else {
        forall i | 0 <= i < |s| ensures !before(x, s[i]) {
          Splits(before, x, last, s[i]);
        }
      }
    }
  }

  lemma InsertIntoBelow<T(!new)>(before: (T, T) -> bool, x: T, init: seq<T>, last: T)
    requires Sorted(before, Insert(before, x, init)) && Sorted(before, init + [last]) && !before(last, x)
    requires multiset(Insert(before, x, init)) == multiset(init) + multiset{x}
    ensures Sorted(before, Insert(before, x, init) + [last])
  {
    hide Insert;
    var r := Insert(before, x, init);
    forall i | 0 <= i < |r| ensures !before(last, r[i]) {
      assert r[i] in multiset(r);
      if r[i] != x {
        var k :| 0 <= k < |init| && init[k] == r[i];
        assert (init + [last])[k] == r[i] && (init + [last])[|init|] == last;
      }
    }
  }

  lemma {:induction false} SortSorts<T(!new)>(before: (T, T) -> bool, s: seq<T>)
    requires WeakOrder(before)
    ensures Sorted(before, Sort(before, s)) && multiset(Sort(before, s)) == multiset(s)
  {
    if s != [] {
      hide WeakOrder, Insert;
      SortSorts(before, s[..|s|-1]);
      InsertSorts(before, s[|s|-1], Sort(before, s[..|s|-1]));
      assert s == s[..|s|-1] + [s[|s|-1]];
    }
  }

  predicate NoTies<T(==)>(before: (T, T) -> bool, s: seq<T>) {
    forall i, j :: 0 <= i < j < |s| && !before(s[i], s[j]) && !before(s[j], s[i]) ==> s[i] == s[j]
  }

  lemma LastsAgree<T(!new)>(before: (T, T) -> bool, s: seq<T>, t: seq<T>)
    requires Sorted(before, s) && Sorted(before, t) && NoTies(before, s) && multiset(s) == multiset(t) && s != [] && t != []
    ensures s[|s|-1] == t[|t|-1]
  {
    assert s[|s|-1] in multiset(t) && t[|t|-1] in multiset(s);
    var i :| 0 <= i < |s| && s[i] == t[|t|-1];
    var j :| 0 <= j < |t| && t[j] == s[|s|-1];
  }

  lemma DropLast<T>(s: seq<T>)
    requires s != []
    ensures multiset(s[..|s|-1]) == multiset(s) - multiset{s[|s|-1]}
  {
    assert s == s[..|s|-1] + [s[|s|-1]];
  }

  lemma PrefixKeeps<T(!new)>(before: (T, T) -> bool, s: seq<T>)
    requires s != []
    ensures Sorted(before, s) ==> Sorted(before, s[..|s|-1])
    ensures NoTies(before, s) ==> NoTies(before, s[..|s|-1])
  {
  }

  lemma {:induction false} SortedIsUnique<T(!new)>(before: (T, T) -> bool, s: seq<T>, t: seq<T>)
    requires Sorted(before, s) && Sorted(before, t) && NoTies(before, s) && multiset(s) == multiset(t)
    ensures s == t
  {
    hide Sorted, NoTies;
    assert |multiset(s)| == |s| && |multiset(t)| == |t|;
    if s != [] {
      PrefixKeeps(before, s);
      PrefixKeeps(before, t);
      LastsAgree(before, s, t);
      DropLast(s);
      DropLast(t);
      SortedIsUnique(before, s[..|s|-1], t[..|t|-1]);
      assert s == s[..|s|-1] + [s[|s|-1]] && t == t[..|t|-1] + [t[|t|-1]];
    }
  }

  lemma {:induction false} SortFixesSorted<T(!new)>(before: (T, T) -> bool, s: seq<T>)
    requires Sorted(before, s)
    ensures Sort(before, s) == s
  {
    if s != [] {
      var init, last := s[..|s|-1], s[|s|-1];
      PrefixKeeps(before, s);
      SortFixesSorted(before, init);
      assert init != [] ==> !before(last, init[|init|-1]);
      assert s == init + [last];
    }
  }

  lemma SortTwoMore<T>(before: (T, T) -> bool, s: seq<T>, x: T, y: T)
    ensures Sort(before, s + [x, y]) == Insert(before, y, Insert(before, x, Sort(before, s)))
  {
    hide Insert;
    assert (s + [x, y])[..|s|+1] == s + [x];
    assert Sort(before, s + [x, y]) == Insert(before, y, Sort(before, s + [x]));
    assert (s + [x])[..|s|] == s;
  }

  /** Tied elements land side by side in the order in which they come. */
  lemma {:induction false} TiesKeepOrder<T(!new)>(before: (T, T) -> bool, x: T, y: T, s: seq<T>) returns (p: nat)
    requires WeakOrder(before) && !before(x, y) && !before(y, x)
    ensures p <= |s|
    ensures Insert(before, y, Insert(before, x, s)) == s[..p] + [x, y] + s[p..]
    ensures Insert(before, x, Insert(before, y, s)) == s[..p] + [y, x] + s[p..]
  {
    hide WeakOrder;
    p := |s|;
    if s != [] {
      var init, last := s[..|s|-1], s[|s|-1];
      assert s == init + [last];
      Splits(before, x, y, last);
      Splits(before, y, x, last);
      if before(x, last) {
        p := TiesKeepOrder(before, x, y, init);
        InsertBeforeLast(before, x, y, init, last);
        InsertBeforeLast(before, y, x, init, last);
        hide Insert;
        assert s[..p] == init[..p] && s[p..] == init[p..] + [last];
      } else {
        InsertAtEnd(before, x, y, s);
        InsertAtEnd(before, y, x, s);
      }
    } else {
      InsertAtEnd(before, x, y, s);
      InsertAtEnd(before, y, x, s);
    }
  }

  lemma InsertAtEnd<T>(before: (T, T) -> bool, x: T, y: T, s: seq<T>)
    requires !before(y, x) && (s != [] ==> !before(x, s[|s|-1]))
    ensures Insert(before, y, Insert(before, x, s)) == s[..|s|] + [x, y] + s[|s|..]
  {
  }

  lemma InsertBeforeLast<T>(before: (T, T) -> bool, x: T, y: T, init: seq<T>, last: T)
    requires before(x, last) && before(y, last)
    ensures Insert(before, y, Insert(before, x, init + [last])) == Insert(before, y, Insert(before, x, init)) + [last]
  {
    var r := Insert(before, x, init);
    assert (init + [last])[..|init|] == init;
    assert Insert(before, x, init + [last]) == r + [last];
    assert (r + [last])[..|r|] == r;
  }

  lemma NoTiesPermute<T(!new)>(before: (T, T) -> bool, s: seq<T>, t: seq<T>)
    requires NoTies(before, s) && (forall x :: before(x, x) ==> false) && multiset(s) == multiset(t)
    ensures NoTies(before, t)
  {
    forall i, j | 0 <= i < j < |t| && !before(t[i], t[j]) && !before(t[j], t[i]) ensures t[i] == t[j] {
      assert t[i] in multiset(s) && t[j] in multiset(s);
      var a :| 0 <= a < |s| && s[a] == t[i];
      var b :| 0 <= b < |s| && s[b] == t[j];
    }
  }

  lemma PermutationsAgree<T(!new)>(before: (T, T) -> bool, s: seq<T>, t: seq<T>)
    requires WeakOrder(before) && NoTies(before, s) && multiset(t) == multiset(s)
    ensures Sort(before, t) == Sort(before, s)
  {
    SortSorts(before, s);
    SortSorts(before, t);
    NoTiesPermute(before, s, Sort(before, s));
    hide Sort, Sorted, NoTies, WeakOrder;
    SortedIsUnique(before, Sort(before, s), Sort(before, t));
  }

  /** At the place where two tied elements land, the one that comes first is the first. */
  lemma TiesDisagree<T(!new)>(before: (T, T) -> bool, rest: seq<T>, x: T, y: T) returns (p: nat)
    requires WeakOrder(before) && !before(x, y) && !before(y, x)
    ensures p < |Sort(before, rest + [x, y])| && Sort(before, rest + [x, y])[p] == x
    ensures p < |Sort(before, rest + [y, x])| && Sort(before, rest + [y, x])[p] == y
  {
    hide WeakOrder, Sort, Insert;
    p := TiesKeepOrder(before, x, y, Sort(before, rest));
    SortTwoMore(before, rest, x, y);
    SortTwoMore(before, rest, y, x);
  }

  lemma TakeOutTwo<T>(s: seq<T>, i: nat, j: nat) returns (rest: seq<T>)
    requires i < j < |s|
    ensures multiset(rest + [s[i], s[j]]) == multiset(s) == multiset(rest + [s[j], s[i]])
  {
    rest := s[..i] + s[i+1..j] + s[j+1..];
    assert s == s[..i] + [s[i]] + s[i+1..j] + [s[j]] + s[j+1..];
  }

  // ----- what is made of the sorted elements -----

  /** Comparing by a key. */
  function By<T, K>(less: (K, K) -> bool, key: T -> K): (T, T) -> bool {
    (x, y) => less(key(x), key(y))
  }

  function Image<T, U>(f: T -> U, s: seq<T>): (r: seq<U>)
    ensures |r| == |s| && forall i :: 0 <= i < |s| ==> r[i] == f(s[i])
  {
    seq(|s|, i requires 0 <= i < |s| => f(s[i]))
  }

  /** f carries one order to the other. */
  ghost predicate Carries<T(!new), P>(before: (T, T) -> bool, f: T -> P, after: (P, P) -> bool) {
    forall x, y :: before(x, y) == after(f(x), f(y))
  }

  lemma {:induction false} ImageInsert<T(!new), P>(before: (T, T) -> bool, f: T -> P, after: (P, P) -> bool, x: T, s: seq<T>)
    requires Carries(before, f, after)
    ensures Image(f, Insert(before, x, s)) == Insert(after, f(x), Image(f, s))
  {
    if s != [] && before(x, s[|s|-1]) {
      ImageInsert(before, f, after, x, s[..|s|-1]);
      assert Image(f, s)[..|s|-1] == Image(f, s[..|s|-1]);
    }
  }

  /** Sorting the images is taking the images of the sorted elements. */
  lemma {:induction false} ImageSort<T(!new), P>(before: (T, T) -> bool, f: T -> P, after: (P, P) -> bool, s: seq<T>)
    requires Carries(before, f, after)
    ensures Image(f, Sort(before, s)) == Sort(after, Image(f, s))
  {
    if s != [] {
      hide Insert, Carries;
      ImageSort(before, f, after, s[..|s|-1]);
      ImageInsert(before, f, after, s[|s|-1], Sort(before, s[..|s|-1]));
      assert Image(f, s)[..|s|-1] == Image(f, s[..|s|-1]);
    }
  }

  function Without<T>(s: seq<T>, i: nat): seq<T>
    requires i < |s|
  {
    s[..i] + s[i+1..]
  }

  lemma WithoutOne<T>(s: seq<T>, i: nat)
    requires i < |s|
    ensures |Without(s, i)| == |s| - 1 && multiset(Without(s, i)) == multiset(s) - multiset{s[i]}
  {
    assert s == s[..i] + [s[i]] + s[i+1..];
  }

  lemma ImageWithout<T, U>(f: T -> U, s: seq<T>, i: nat)
    requires i < |s|
    ensures multiset(Image(f, s)) == multiset(Image(f, Without(s, i))) + multiset{f(s[i])}
  {
    assert Image(f, s) == Image(f, s[..i]) + [f(s[i])] + Image(f, s[i+1..]);
    assert Image(f, Without(s, i)) == Image(f, s[..i]) + Image(f, s[i+1..]);
  }

  lemma {:induction false} ImagePermutes<T, U>(f: T -> U, s: seq<T>, t: seq<T>)
    requires multiset(s) == multiset(t)
    ensures multiset(Image(f, s)) == multiset(Image(f, t))
    decreases |s|
  {
    hide Image, Without;
    assert |multiset(s)| == |s| && |multiset(t)| == |t|;
    if s == [] {
      assert t == s;
    } else {
      var x := s[0];
      assert x in multiset(t);
      var i :| 0 <= i < |t| && t[i] == x;
      WithoutOne(s, 0);
      WithoutOne(t, i);
      ImagePermutes(f, Without(s, 0), Without(t, i));
      ImageWithout(f, s, 0);
      ImageWithout(f, t, i);
    }
  }

  /** A weak order in which only equal elements are tied. */
  ghost predicate TotalOrder<K(!new)>(less: (K, K) -> bool) {
    WeakOrder(less) && forall x, y :: less(x, y) || less(y, x) || x == y
  }

  function Both<T, K, U>(key: T -> K, form: T -> U): T -> (K, U) {
    x => (key(x), form(x))
  }

  function First<K, U>(): ((K, U)) -> K {
    (p: (K, U)) => p.0
  }

  /** Elements with one key have one form. */
  ghost predicate OneForm<T, K(!new), U(!new)>(key: T -> K, form: T -> U, s: seq<T>) {
    forall i, j :: 0 <= i < j < |s| && key(s[i]) == key(s[j]) ==> form(s[i]) == form(s[j])
  }

  lemma KeyedOrder<T(!new), K(!new)>(less: (K, K) -> bool, key: T -> K)
    requires TotalOrder(less)
    ensures WeakOrder(By(less, key))
  {
    var before := By(less, key);
    forall x, y, z ensures (before(x, y) ==> !before(y, x)) && (before(x, z) ==> before(x, y) || before(y, z)) {
      Splits(less, key(x), key(y), key(z));
    }
  }

  lemma NoTiesIffOneForm<T(!new), K(!new), U(!new)>(less: (K, K) -> bool, key: T -> K, form: T -> U, s: seq<T>)
    requires TotalOrder(less)
    ensures NoTies(By(less, First<K, U>()), Image(Both(key, form), s)) <==> OneForm(key, form, s)
  {
    var pairs := Image(Both(key, form), s);
    forall x: K ensures !less(x, x) {
    }
    hide WeakOrder;
    assert forall i :: 0 <= i < |s| ==> pairs[i].0 == key(s[i]) && pairs[i].1 == form(s[i]);
  }

  /** Sorted by a key, the forms of the elements ignore the input order if and only if elements with
      one key have one form. */
  lemma FormsForgetOrderIff<T(!new), K(!new), U(!new)>(less: (K, K) -> bool, key: T -> K, form: T -> U, s: seq<T>)
    requires TotalOrder(less)
    ensures OneForm(key, form, s) <==>
              forall t :: multiset(t) == multiset(s) ==> Image(form, Sort(By(less, key), t)) == Image(form, Sort(By(less, key), s))
  {
    hide TotalOrder, Sort, Image, WeakOrder, OneForm;
    if OneForm(key, form, s) {
      forall t | multiset(t) == multiset(s) ensures Image(form, Sort(By(less, key), t)) == Image(form, Sort(By(less, key), s)) {
        FormsAgree(less, key, form, s, t);
      }
    } else {
      var t, u := FormsDisagree(less, key, form, s);
    }
  }

  lemma FormsAgree<T(!new), K(!new), U(!new)>(less: (K, K) -> bool, key: T -> K, form: T -> U, s: seq<T>, t: seq<T>)
    requires TotalOrder(less) && OneForm(key, form, s) && multiset(t) == multiset(s)
    ensures Image(form, Sort(By(less, key), t)) == Image(form, Sort(By(less, key), s))
  {
    var both, after := Both(key, form), By(less, First<K, U>());
    NoTiesIffOneForm(less, key, form, s);
    KeyedOrder(less, First<K, U>());
    ImagePermutes(both, s, t);
    hide TotalOrder, WeakOrder, Sort, OneForm, NoTies;
    PermutationsAgree(after, Image(both, s), Image(both, t));
    assert Carries(By(less, key), both, after);
    ImageSort(By(less, key), both, after, s);
    ImageSort(By(less, key), both, after, t);
    FormsOfBoth(key, form, Sort(By(less, key), s), Sort(By(less, key), t));
  }

  lemma FormsOfBoth<T, K, U>(key: T -> K, form: T -> U, s: seq<T>, t: seq<T>)
    requires Image(Both(key, form), s) == Image(Both(key, form), t)
    ensures Image(form, s) == Image(form, t)
  {
    var a, b := Image(Both(key, form), s), Image(Both(key, form), t);
    assert |s| == |a| == |b| == |t|;
    forall i | 0 <= i < |s| ensures form(s[i]) == form(t[i]) {
      assert a[i] == b[i];
    }
  }

  /** Two orders of the same elements whose sorted forms differ. */
  lemma FormsDisagree<T(!new), K(!new), U(!new)>(less: (K, K) -> bool, key: T -> K, form: T -> U, s: seq<T>)
    returns (t: seq<T>, u: seq<T>)
    requires TotalOrder(less) && !OneForm(key, form, s)
    ensures multiset(t) == multiset(s) == multiset(u)
    ensures Image(form, Sort(By(less, key), t)) != Image(form, Sort(By(less, key), u))
  {
    var i, j :| 0 <= i < j < |s| && key(s[i]) == key(s[j]) && form(s[i]) != form(s[j]);
    var before := By(less, key);
    KeyedOrder(less, key);
    var rest := TakeOutTwo(s, i, j);
    t, u := rest + [s[i], s[j]], rest + [s[j], s[i]];
    assert !before(s[i], s[j]) && !before(s[j], s[i]) by { Splits(less, key(s[i]), key(s[j]), key(s[i])); }
    var p := TiesDisagree(before, rest, s[i], s[j]);
    hide Sort, OneForm, WeakOrder, TotalOrder;
    assert Image(form, Sort(before, t))[p] == form(s[i]) && Image(form, Sort(before, u))[p] == form(s[j]);
  }
}
