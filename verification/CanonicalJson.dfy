/** The canonical form of a JSON value: object keys sorted, excluded keys and undefined members
    dropped, opening and closing times completed to seconds. What it stands for is a meaning in
    which objects are maps; two values have the same canonical form exactly when they mean the same. */
module CanonicalJson {
  import opened StableSort

  datatype Json =
    | Null | Undefined | Bool(b: bool) | Number(n: real) | Str(s: string)
    | Arr(items: seq<Json>) | Obj(fields: seq<Field>)

  datatype Field = Field(key: string, value: Json)

  const TIME_KEYS: set<string> := {"marketOpenTime", "marketCloseTime"}

  predicate IsDigit(c: char) {
    '0' <= c <= '9'
  }

  /** HH:MM becomes HH:MM:00. */
  function NormalizeTime(s: string): string {
    if |s| == 5 && IsDigit(s[0]) && IsDigit(s[1]) && s[2] == ':' && IsDigit(s[3]) && IsDigit(s[4]) then s + ":00" else s
  }

  ghost predicate ClockText(s: string) {
    |s| == 5 && s[2] == ':' && forall i :: i in {0, 1, 3, 4} ==> '0' <= s[i] <= '9'
  }

  /** Two opening or closing times are alike only if they are equal or differ by added seconds of zero. */
  lemma TimesAlike(a: string, b: string)
    ensures NormalizeTime(a) == NormalizeTime(b) <==> a == b || (ClockText(a) && b == a + ":00") || (ClockText(b) && a == b + ":00")
  {
    forall s: string ensures ClockText(s) <==> NormalizeTime(s) == s + ":00" {
      assert s + ":00" != s by { assert |s + ":00"| == |s| + 3; }
    }
    if NormalizeTime(a) == NormalizeTime(b) && ClockText(a) && ClockText(b) {
      assert (a + ":00")[..5] == a && (b + ":00")[..5] == b;
    }
  }

  predicate ByKey(f: Field, g: Field) {
    Before(f.key, g.key)
  }

  function Strip(v: Json, parent: string, excluded: set<string>): Json
    decreases v, 1, 0
  {
    match v
    case Str(s) => if parent in TIME_KEYS then Str(NormalizeTime(s)) else v
    case Arr(items) => Arr(seq(|items|, i requires 0 <= i < |items| => Strip(items[i], parent, excluded)))
    case Obj(fields) => Obj(Sort(ByKey, StripEach(v, |fields|, excluded)))
    case _ => v
  }

  /** The kept members among the first n, stripped. */
  function StripEach(v: Json, n: nat, excluded: set<string>): seq<Field>
    requires v.Obj? && n <= |v.fields|
    decreases v, 0, n
  {
    if n == 0 then []
    else
      var f := v.fields[n-1];
      var next := Strip(f.value, f.key, excluded);
      if f.key in excluded || next.Undefined? then StripEach(v, n - 1, excluded)
      else StripEach(v, n - 1, excluded) + [Field(f.key, next)]
  }

  // ----- what a value means -----

  datatype Value =
    | VNull | VUndefined | VBool(b: bool) | VNumber(n: real) | VStr(s: string)
    | VArr(items: seq<Value>) | VObj(members: map<string, Value>)

  function Meaning(v: Json, parent: string, excluded: set<string>): Value
    decreases v, 1, 0
  {
    match v
    case Null => VNull
    case Undefined => VUndefined
    case Bool(b) => VBool(b)
    case Number(n) => VNumber(n)
    case Str(s) => VStr(if parent in TIME_KEYS then NormalizeTime(s) else s)
    case Arr(items) => VArr(seq(|items|, i requires 0 <= i < |items| => Meaning(items[i], parent, excluded)))
    case Obj(fields) => VObj(Members(v, |fields|, excluded))
  }

  function Members(v: Json, n: nat, excluded: set<string>): map<string, Value>
    requires v.Obj? && n <= |v.fields|
    decreases v, 0, n
  {
    if n == 0 then map[]
    else
      var f := v.fields[n-1];
      if Kept(f, excluded) then Members(v, n - 1, excluded)[f.key := Meaning(f.value, f.key, excluded)]
      else Members(v, n - 1, excluded)
  }

  predicate Kept(f: Field, excluded: set<string>) {
    f.key !in excluded && !f.value.Undefined?
  }

  /** Every object in the value has pairwise distinct keys, as JavaScript objects do. */
  predicate KeysDistinct(v: Json) {
    match v
    case Arr(items) => forall i :: 0 <= i < |items| ==> KeysDistinct(items[i])
    case Obj(fields) =>
      && (forall i, j :: 0 <= i < j < |fields| ==> fields[i].key != fields[j].key)
      && (forall i :: 0 <= i < |fields| ==> KeysDistinct(fields[i].value))
    case _ => true
  }

  function Stripped(f: Field, excluded: set<string>): Field {
    Field(f.key, Strip(f.value, f.key, excluded))
  }

  lemma StripUndefined(v: Json, parent: string, excluded: set<string>)
    ensures Strip(v, parent, excluded).Undefined? <==> v.Undefined?
  {
  }

  ghost predicate ComesFrom(v: Json, n: nat, excluded: set<string>, f: Field)
    requires v.Obj? && n <= |v.fields|
  {
    exists i :: 0 <= i < n && Kept(v.fields[i], excluded) && Stripped(v.fields[i], excluded) == f
  }

  lemma {:induction false} EachMembers(v: Json, n: nat, excluded: set<string>)
    requires v.Obj? && n <= |v.fields|
    ensures forall i :: 0 <= i < n && Kept(v.fields[i], excluded) ==> Stripped(v.fields[i], excluded) in StripEach(v, n, excluded)
    ensures forall f <- StripEach(v, n, excluded) :: ComesFrom(v, n, excluded, f)
  {
    if n > 0 {
      hide Strip;
      EachMembers(v, n - 1, excluded);
      StripUndefined(v.fields[n-1].value, v.fields[n-1].key, excluded);
      var before, last := StripEach(v, n - 1, excluded), v.fields[n-1];
      assert StripEach(v, n, excluded) == if Kept(last, excluded) then before + [Stripped(last, excluded)] else before;
      forall f <- StripEach(v, n, excluded) ensures ComesFrom(v, n, excluded, f) {
        if f in before {
          assert ComesFrom(v, n - 1, excluded, f);
        } else {
          assert Kept(v.fields[n-1], excluded) && Stripped(v.fields[n-1], excluded) == f;
        }
      }
    }
  }

  lemma {:induction false} EachDistinct(v: Json, n: nat, excluded: set<string>)
    requires KeysDistinct(v) && v.Obj? && n <= |v.fields|
    ensures forall i, j :: 0 <= i < j < |StripEach(v, n, excluded)| ==> StripEach(v, n, excluded)[i].key != StripEach(v, n, excluded)[j].key
  {
    if n > 0 {
      hide Strip;
      EachDistinct(v, n - 1, excluded);
      EachMembers(v, n - 1, excluded);
      var before := StripEach(v, n - 1, excluded);
      forall k | 0 <= k < |before| ensures before[k].key != v.fields[n-1].key {
        assert ComesFrom(v, n - 1, excluded, before[k]);
      }
    }
  }

  lemma {:induction false} MembersAre(v: Json, n: nat, excluded: set<string>)
    requires KeysDistinct(v) && v.Obj? && n <= |v.fields|
    ensures forall i :: 0 <= i < n && Kept(v.fields[i], excluded) ==>
              v.fields[i].key in Members(v, n, excluded)
              && Members(v, n, excluded)[v.fields[i].key] == Meaning(v.fields[i].value, v.fields[i].key, excluded)
    ensures forall key <- Members(v, n, excluded) :: exists i :: 0 <= i < n && Kept(v.fields[i], excluded) && v.fields[i].key == key
  {
    if n > 0 {
      hide Meaning;
      MembersAre(v, n - 1, excluded);
    }
  }

  // ----- canonical forms and meanings agree -----

  lemma KeyOrder()
    ensures WeakOrder(ByKey)
  {
    forall x: Field, y: Field ensures ByKey(x, y) ==> !ByKey(y, x) {
      BeforeIsOrder(x.key, y.key, "");
    }
    forall x: Field, y: Field, z: Field ensures ByKey(x, z) ==> ByKey(x, y) || ByKey(y, z) {
      BeforeIsOrder(x.key, y.key, z.key);
      BeforeIsOrder(y.key, x.key, z.key);
      BeforeIsOrder(x.key, z.key, y.key);
      BeforeIsOrder(z.key, y.key, x.key);
    }
  }

  lemma {:induction false} AtMostOnce<T>(s: seq<T>, x: T)
    requires forall i, j :: 0 <= i < j < |s| ==> s[i] != s[j]
    ensures multiset(s)[x] == if x in s then 1 else 0
  {
    if s != [] {
      AtMostOnce(s[..|s|-1], x);
      assert s == s[..|s|-1] + [s[|s|-1]];
    }
  }

  lemma SameElements<T>(s: seq<T>, t: seq<T>)
    requires forall i, j :: 0 <= i < j < |s| ==> s[i] != s[j]
    requires forall i, j :: 0 <= i < j < |t| ==> t[i] != t[j]
    requires (forall i :: 0 <= i < |s| ==> s[i] in t) && forall i :: 0 <= i < |t| ==> t[i] in s
    ensures multiset(s) == multiset(t)
  {
    forall x ensures multiset(s)[x] == multiset(t)[x] {
      AtMostOnce(s, x);
      AtMostOnce(t, x);
    }
  }

  lemma DistinctKeysSortAlike(s: seq<Field>, t: seq<Field>)
    requires forall i, j :: 0 <= i < j < |s| ==> s[i].key != s[j].key
    requires forall i, j :: 0 <= i < j < |t| ==> t[i].key != t[j].key
    requires (forall i :: 0 <= i < |s| ==> s[i] in t) && forall i :: 0 <= i < |t| ==> t[i] in s
    ensures Sort(ByKey, s) == Sort(ByKey, t)
  {
    SameElements(s, t);
    KeyOrder();
    hide WeakOrder, Sort;
    forall i, j | 0 <= i < j < |s| ensures ByKey(s[i], s[j]) || ByKey(s[j], s[i]) {
      BeforeIsOrder(s[i].key, s[j].key, "");
    }
    PermutationsAgree(ByKey, s, t);
  }

  lemma SortedAlikeSameElements(s: seq<Field>, t: seq<Field>)
    requires Sort(ByKey, s) == Sort(ByKey, t)
    ensures forall i :: 0 <= i < |s| ==> s[i] in t
  {
    KeyOrder();
    SortSorts(ByKey, s);
    SortSorts(ByKey, t);
    hide WeakOrder, Sort;
    forall i | 0 <= i < |s| ensures s[i] in t {
      assert s[i] in multiset(s);
      assert s[i] in multiset(t);
    }
  }

  /** Two values have the same canonical form exactly when they mean the same: key order, excluded
      keys and undefined members at any depth make no difference, everything else does. */
  lemma {:induction false} CanonicalIffSameMeaning(a: Json, b: Json, parent: string, excluded: set<string>)
    requires KeysDistinct(a) && KeysDistinct(b)
    ensures Strip(a, parent, excluded) == Strip(b, parent, excluded) <==> Meaning(a, parent, excluded) == Meaning(b, parent, excluded)
    decreases a
  {
    if a.Arr? && b.Arr? {
      ArraysAgree(a, b, parent, excluded);
    } else if a.Obj? && b.Obj? {
      forall i: nat, j: nat | i < |a.fields| && j < |b.fields| && a.fields[i].key == b.fields[j].key
        ensures SameForm(a.fields[i], b.fields[j], excluded)
      {
        CanonicalIffSameMeaning(a.fields[i].value, b.fields[j].value, a.fields[i].key, excluded);
      }
      assert SameForms(a, b, excluded);
      ObjectsAgree(a, b, excluded);
    }
  }

  ghost predicate SameForm(f: Field, g: Field, excluded: set<string>) {
    Stripped(f, excluded) == Stripped(g, excluded) <==> Meaning(f.value, f.key, excluded) == Meaning(g.value, g.key, excluded)
  }

  lemma {:induction false} ArraysAgree(a: Json, b: Json, parent: string, excluded: set<string>)
    requires KeysDistinct(a) && KeysDistinct(b) && a.Arr? && b.Arr?
    ensures Strip(a, parent, excluded) == Strip(b, parent, excluded) <==> Meaning(a, parent, excluded) == Meaning(b, parent, excluded)
    decreases a, 0
  {
    var n := |a.items|;
    if n == |b.items| {
      var sa, sb := Strip(a, parent, excluded).items, Strip(b, parent, excluded).items;
      var ma, mb := Meaning(a, parent, excluded).items, Meaning(b, parent, excluded).items;
      forall i | 0 <= i < n ensures sa[i] == sb[i] <==> ma[i] == mb[i] {
        CanonicalIffSameMeaning(a.items[i], b.items[i], parent, excluded);
      }
      assert sa == sb <==> forall i :: 0 <= i < n ==> sa[i] == sb[i];
      assert ma == mb <==> forall i :: 0 <= i < n ==> ma[i] == mb[i];
    }
  }

  ghost predicate SameForms(a: Json, b: Json, excluded: set<string>)
    requires a.Obj? && b.Obj?
  {
    forall i: nat, j: nat :: i < |a.fields| && j < |b.fields| && a.fields[i].key == b.fields[j].key ==>
      SameForm(a.fields[i], b.fields[j], excluded)
  }

  ghost predicate Within(s: seq<Field>, t: seq<Field>) {
    forall k :: 0 <= k < |s| ==> s[k] in t
  }

  ghost predicate MapWithin(m: map<string, Value>, n: map<string, Value>) {
    forall key <- m :: key in n && m[key] == n[key]
  }

  lemma MeaningsWithin(a: Json, b: Json, excluded: set<string>)
    requires KeysDistinct(a) && KeysDistinct(b) && a.Obj? && b.Obj? && SameForms(a, b, excluded)
    requires Within(StripEach(a, |a.fields|, excluded), StripEach(b, |b.fields|, excluded))
    ensures MapWithin(Members(a, |a.fields|, excluded), Members(b, |b.fields|, excluded))
  {
    var sa, sb := StripEach(a, |a.fields|, excluded), StripEach(b, |b.fields|, excluded);
    var ma, mb := Members(a, |a.fields|, excluded), Members(b, |b.fields|, excluded);
    EachMembers(a, |a.fields|, excluded);
    EachMembers(b, |b.fields|, excluded);
    MembersAre(a, |a.fields|, excluded);
    MembersAre(b, |b.fields|, excluded);
    hide StripEach, Members, Meaning, Strip, Kept, KeysDistinct;
    forall key <- ma ensures key in mb && ma[key] == mb[key] {
      var i :| 0 <= i < |a.fields| && Kept(a.fields[i], excluded) && a.fields[i].key == key;
      var f := Stripped(a.fields[i], excluded);
      assert f in sa;
      assert f in sb;
      assert ComesFrom(b, |b.fields|, excluded, f);
      var j :| 0 <= j < |b.fields| && Kept(b.fields[j], excluded) && Stripped(b.fields[j], excluded) == f;
      assert SameForm(a.fields[i], b.fields[j], excluded);
    }
  }

  lemma FormsWithin(a: Json, b: Json, excluded: set<string>)
    requires KeysDistinct(a) && KeysDistinct(b) && a.Obj? && b.Obj? && SameForms(a, b, excluded)
    requires MapWithin(Members(a, |a.fields|, excluded), Members(b, |b.fields|, excluded))
    ensures Within(StripEach(a, |a.fields|, excluded), StripEach(b, |b.fields|, excluded))
  {
    var sa, sb := StripEach(a, |a.fields|, excluded), StripEach(b, |b.fields|, excluded);
    var ma, mb := Members(a, |a.fields|, excluded), Members(b, |b.fields|, excluded);
    EachMembers(a, |a.fields|, excluded);
    EachMembers(b, |b.fields|, excluded);
    MembersAre(a, |a.fields|, excluded);
    MembersAre(b, |b.fields|, excluded);
    hide StripEach, Members, Meaning, Strip, Kept, KeysDistinct;
    forall k | 0 <= k < |sa| ensures sa[k] in sb {
      assert ComesFrom(a, |a.fields|, excluded, sa[k]);
      var i :| 0 <= i < |a.fields| && Kept(a.fields[i], excluded) && Stripped(a.fields[i], excluded) == sa[k];
      var key := a.fields[i].key;
      assert key in ma && key in mb;
      var j :| 0 <= j < |b.fields| && Kept(b.fields[j], excluded) && b.fields[j].key == key;
      assert SameForm(a.fields[i], b.fields[j], excluded);
    }
  }

  lemma ObjectsAgree(a: Json, b: Json, excluded: set<string>)
    requires KeysDistinct(a) && KeysDistinct(b) && a.Obj? && b.Obj? && SameForms(a, b, excluded)
    ensures Sort(ByKey, StripEach(a, |a.fields|, excluded)) == Sort(ByKey, StripEach(b, |b.fields|, excluded))
       <==> Members(a, |a.fields|, excluded) == Members(b, |b.fields|, excluded)
  {
    var sa, sb := StripEach(a, |a.fields|, excluded), StripEach(b, |b.fields|, excluded);
    EachDistinct(a, |a.fields|, excluded);
    EachDistinct(b, |b.fields|, excluded);
    var ma, mb := Members(a, |a.fields|, excluded), Members(b, |b.fields|, excluded);
    assert SameForms(b, a, excluded);
    hide StripEach, Members, Sort, KeysDistinct, SameForms;
    if Sort(ByKey, sa) == Sort(ByKey, sb) {
      SortedAlikeSameElements(sa, sb);
      SortedAlikeSameElements(sb, sa);
      MeaningsWithin(a, b, excluded);
      MeaningsWithin(b, a, excluded);
      assert ma.Keys == mb.Keys;
    }
    if ma == mb {
      FormsWithin(a, b, excluded);
      FormsWithin(b, a, excluded);
      DistinctKeysSortAlike(sa, sb);
    }
  }

  // ----- canonical forms are canonical -----

  lemma PermutedKeysDistinct(s: seq<Field>, t: seq<Field>)
    requires multiset(s) == multiset(t) && forall i, j :: 0 <= i < j < |s| ==> s[i].key != s[j].key
    ensures forall i, j :: 0 <= i < j < |t| ==> t[i].key != t[j].key
  {
    forall i, j | 0 <= i < j < |t| ensures t[i].key != t[j].key {
      AtMostOnce(s, t[i]);
      var rest := TakeOutTwo(t, i, j);
      assert multiset(t)[t[i]] <= 1;
      assert multiset(rest + [t[i], t[j]]) == multiset(rest) + multiset{t[i]} + multiset{t[j]};
      assert t[i] in multiset(s) && t[j] in multiset(s);
      var a :| 0 <= a < |s| && s[a] == t[i];
      var b :| 0 <= b < |s| && s[b] == t[j];
    }
  }

  ghost predicate Canonical(f: Field, excluded: set<string>) {
    Kept(f, excluded) && Stripped(f, excluded) == f && KeysDistinct(f.value)
  }

  lemma {:induction false} EachFixed(w: Json, n: nat, excluded: set<string>)
    requires w.Obj? && n <= |w.fields| && forall f <- w.fields :: Canonical(f, excluded)
    ensures StripEach(w, n, excluded) == w.fields[..n]
  {
    if n > 0 {
      hide Strip, KeysDistinct;
      EachFixed(w, n - 1, excluded);
      assert Canonical(w.fields[n-1], excluded);
    }
  }

  /** Stripping is idempotent, keeps the keys distinct, and keeps the meaning. */
  lemma {:induction false} StripIsCanonical(v: Json, parent: string, excluded: set<string>)
    requires KeysDistinct(v)
    ensures KeysDistinct(Strip(v, parent, excluded))
    ensures Strip(Strip(v, parent, excluded), parent, excluded) == Strip(v, parent, excluded)
    ensures Meaning(Strip(v, parent, excluded), parent, excluded) == Meaning(v, parent, excluded)
    decreases v, 1
  {
    var w := Strip(v, parent, excluded);
    if v.Arr? {
      forall i | 0 <= i < |v.items| ensures KeysDistinct(w.items[i]) && Strip(w.items[i], parent, excluded) == w.items[i] {
        StripIsCanonical(v.items[i], parent, excluded);
      }
      assert Strip(w, parent, excluded).items == w.items;
    } else if v.Obj? {
      ObjectIsCanonical(v, excluded);
    }
    CanonicalIffSameMeaning(w, v, parent, excluded);
  }

  lemma {:induction false} EachCanonical(v: Json, excluded: set<string>)
    requires KeysDistinct(v) && v.Obj?
    ensures forall f <- StripEach(v, |v.fields|, excluded) :: Canonical(f, excluded)
    decreases v, 0, 0
  {
    EachMembers(v, |v.fields|, excluded);
    forall f <- StripEach(v, |v.fields|, excluded) ensures Canonical(f, excluded) {
      assert ComesFrom(v, |v.fields|, excluded, f);
      var i :| 0 <= i < |v.fields| && Kept(v.fields[i], excluded) && Stripped(v.fields[i], excluded) == f;
      StripIsCanonical(v.fields[i].value, v.fields[i].key, excluded);
      StripUndefined(v.fields[i].value, v.fields[i].key, excluded);
    }
  }

  lemma {:induction false} ObjectIsCanonical(v: Json, excluded: set<string>)
    requires KeysDistinct(v) && v.Obj?
    ensures var w := Obj(Sort(ByKey, StripEach(v, |v.fields|, excluded)));
            KeysDistinct(w) && Sort(ByKey, StripEach(w, |w.fields|, excluded)) == w.fields
    decreases v, 0, 1
  {
    var each := StripEach(v, |v.fields|, excluded);
    var w := Obj(Sort(ByKey, each));
    KeyOrder();
    EachDistinct(v, |v.fields|, excluded);
    EachCanonical(v, excluded);
    SortSorts(ByKey, each);
    hide StripEach, WeakOrder, Sort, Sorted, KeysDistinct, Canonical;
    PermutedKeysDistinct(each, w.fields);
    forall f <- w.fields ensures Canonical(f, excluded) {
      assert f in multiset(w.fields);
      assert f in multiset(each);
    }
    ObjectKeysDistinct(w, excluded);
    EachFixed(w, |w.fields|, excluded);
    SortFixesSorted(ByKey, w.fields);
    assert w.fields[..|w.fields|] == w.fields;
  }

  lemma ObjectKeysDistinct(w: Json, excluded: set<string>)
    requires w.Obj? && forall i, j :: 0 <= i < j < |w.fields| ==> w.fields[i].key != w.fields[j].key
    requires forall f <- w.fields :: Canonical(f, excluded)
    ensures KeysDistinct(w)
  {
    hide Stripped, Kept;
    forall i | 0 <= i < |w.fields| ensures KeysDistinct(w.fields[i].value) {
      assert Canonical(w.fields[i], excluded);
    }
  }

  /** The keys of a canonical object ascend. */
  lemma KeysAscend(v: Json, parent: string, excluded: set<string>)
    requires v.Obj? && KeysDistinct(v)
    ensures var w := Strip(v, parent, excluded);
            w.Obj? && forall i, j :: 0 <= i < j < |w.fields| ==> Before(w.fields[i].key, w.fields[j].key)
  {
    var each := StripEach(v, |v.fields|, excluded);
    var fields := Sort(ByKey, each);
    KeyOrder();
    EachDistinct(v, |v.fields|, excluded);
    SortSorts(ByKey, each);
    hide StripEach, WeakOrder, Sort, KeysDistinct, Before;
    PermutedKeysDistinct(each, fields);
    forall i, j | 0 <= i < j < |fields| ensures Before(fields[i].key, fields[j].key) {
      BeforeIsOrder(fields[i].key, fields[j].key, "");
      assert !ByKey(fields[j], fields[i]);
    }
  }

  // ----- objects that differ in one member -----

  ghost predicate SameKeys(v: Json, w: Json) {
    && v.Obj? && w.Obj? && |v.fields| == |w.fields|
    && (forall i :: 0 <= i < |v.fields| ==> v.fields[i].key == w.fields[i].key)
    && (forall i, j :: 0 <= i < j < |v.fields| ==> v.fields[i].key != v.fields[j].key)
  }

  lemma {:induction false} EachAlike(v: Json, w: Json, n: nat, excluded: set<string>)
    requires v.Obj? && w.Obj? && n <= |v.fields| && n <= |w.fields|
    requires forall i :: 0 <= i < n ==> Stripped(v.fields[i], excluded) == Stripped(w.fields[i], excluded)
    ensures StripEach(v, n, excluded) == StripEach(w, n, excluded)
  {
    if n > 0 {
      hide Strip;
      EachAlike(v, w, n - 1, excluded);
      assert Stripped(v.fields[n-1], excluded) == Stripped(w.fields[n-1], excluded);
    }
  }

  lemma MemberSeen(v: Json, w: Json, k: nat, excluded: set<string>)
    requires SameKeys(v, w) && k < |v.fields| && Kept(v.fields[k], excluded)
    requires Sort(ByKey, StripEach(v, |v.fields|, excluded)) == Sort(ByKey, StripEach(w, |w.fields|, excluded))
    ensures Kept(w.fields[k], excluded) && Stripped(v.fields[k], excluded) == Stripped(w.fields[k], excluded)
  {
    var sv, sw := StripEach(v, |v.fields|, excluded), StripEach(w, |w.fields|, excluded);
    EachMembers(v, |v.fields|, excluded);
    EachMembers(w, |w.fields|, excluded);
    SortedAlikeSameElements(sv, sw);
    hide StripEach, Sort, Strip;
    var f := Stripped(v.fields[k], excluded);
    assert f in sv;
    assert ComesFrom(w, |w.fields|, excluded, f);
    var j :| 0 <= j < |w.fields| && Kept(w.fields[j], excluded) && Stripped(w.fields[j], excluded) == f;
    assert j == k;
  }

  ghost predicate MemberAlike(v: Json, w: Json, i: nat, excluded: set<string>)
    requires v.Obj? && w.Obj? && i < |v.fields| && i < |w.fields|
  {
    Strip(v.fields[i].value, v.fields[i].key, excluded) == Strip(w.fields[i].value, w.fields[i].key, excluded)
  }

  /** Objects with the same keys, none of them excluded, have the same canonical form exactly when
      each member has, missing members included. */
  lemma AllMembersSeen(v: Json, w: Json, parent: string, excluded: set<string>)
    requires SameKeys(v, w) && forall i :: 0 <= i < |v.fields| ==> v.fields[i].key !in excluded
    ensures Strip(v, parent, excluded) == Strip(w, parent, excluded)
       <==> forall i :: 0 <= i < |v.fields| ==> MemberAlike(v, w, i, excluded)
  {
    if Strip(v, parent, excluded) == Strip(w, parent, excluded) {
      forall i | 0 <= i < |v.fields| ensures MemberAlike(v, w, i, excluded) {
        if Kept(v.fields[i], excluded) {
          MemberSeen(v, w, i, excluded);
        } else if Kept(w.fields[i], excluded) {
          MemberSeen(w, v, i, excluded);
        }
      }
    }
    if forall i :: 0 <= i < |v.fields| ==> MemberAlike(v, w, i, excluded) {
      forall i | 0 <= i < |v.fields| ensures Stripped(v.fields[i], excluded) == Stripped(w.fields[i], excluded) {
        assert MemberAlike(v, w, i, excluded);
      }
      EachAlike(v, w, |v.fields|, excluded);
    }
  }

  lemma EachOneMore(fields: seq<Field>, f: Field, excluded: set<string>)
    ensures var v, n := Obj(fields + [f]), |fields|;
            StripEach(v, n + 1, excluded)
              == StripEach(Obj(fields), n, excluded) + if Kept(f, excluded) then [Stripped(f, excluded)] else []
  {
    EachAlike(Obj(fields + [f]), Obj(fields), |fields|, excluded);
    StripUndefined(f.value, f.key, excluded);
    hide Strip;
  }

  lemma LongerSortsApart(s: seq<Field>, f: Field)
    ensures Sort(ByKey, s + [f]) != Sort(ByKey, s)
  {
    KeyOrder();
    SortSorts(ByKey, s);
    SortSorts(ByKey, s + [f]);
    hide Sort, WeakOrder, Sorted;
    assert |multiset(s + [f])| == |multiset(s)| + 1;
  }

  /** One more member changes the canonical form of an object exactly when its key is not excluded
      and its value is not undefined. */
  lemma OneMoreMemberSeen(fields: seq<Field>, f: Field, parent: string, excluded: set<string>)
    ensures Strip(Obj(fields + [f]), parent, excluded) != Strip(Obj(fields), parent, excluded)
       <==> f.key !in excluded && f.value != Undefined
  {
    EachOneMore(fields, f, excluded);
    LongerSortsApart(StripEach(Obj(fields), |fields|, excluded), Stripped(f, excluded));
    ObjectForm(fields + [f], parent, excluded);
    ObjectForm(fields, parent, excluded);
    hide StripEach, Sort, Strip;
    assert StripEach(Obj(fields), |fields|, excluded) + [] == StripEach(Obj(fields), |fields|, excluded);
  }

  lemma ObjectForm(fields: seq<Field>, parent: string, excluded: set<string>)
    ensures Strip(Obj(fields), parent, excluded) == Obj(Sort(ByKey, StripEach(Obj(fields), |fields|, excluded)))
  {
  }

  /** Objects alike in all members but one have the same canonical form exactly when that member has. */
  lemma OneMemberSeen(v: Json, w: Json, k: nat, parent: string, excluded: set<string>)
    requires SameKeys(v, w) && k < |v.fields| && Kept(v.fields[k], excluded) && Kept(w.fields[k], excluded)
    requires forall i :: 0 <= i < |v.fields| && i != k ==> v.fields[i] == w.fields[i]
    ensures Strip(v, parent, excluded) == Strip(w, parent, excluded)
       <==> Strip(v.fields[k].value, v.fields[k].key, excluded) == Strip(w.fields[k].value, w.fields[k].key, excluded)
  {
    if Strip(v.fields[k].value, v.fields[k].key, excluded) == Strip(w.fields[k].value, w.fields[k].key, excluded) {
      EachAlike(v, w, |v.fields|, excluded);
    }
    if Strip(v, parent, excluded) == Strip(w, parent, excluded) {
      MemberSeen(v, w, k, excluded);
    }
  }
}
