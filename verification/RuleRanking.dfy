/** Rankings of rules by fitness, generic in what a rule is: stable, best first, and what survives
    from one ranking to the next when the best lead. Then the choice that is published. */
module RuleRanking {
  const ELITE: nat := 8
  const PUBLISHED: nat := 6

  datatype Evaluated<R> = Evaluated(rule: R, fitness: real)

  /** Stable insertion, best first. */
  function Insert<R>(e: Evaluated<R>, ranked: seq<Evaluated<R>>): seq<Evaluated<R>> {
    if ranked == [] || ranked[|ranked|-1].fitness >= e.fitness then ranked + [e]
    else Insert(e, ranked[..|ranked|-1]) + [ranked[|ranked|-1]]
  }

  function Ranked<R>(list: seq<Evaluated<R>>): seq<Evaluated<R>> {
    if list == [] then [] else Insert(list[|list|-1], Ranked(list[..|list|-1]))
  }

  predicate Descending<R>(list: seq<Evaluated<R>>) {
    forall i, j :: 0 <= i < j < |list| ==> list[i].fitness >= list[j].fitness
  }

  /** How many are at least this fit. */
  function CountAtLeast<R>(list: seq<Evaluated<R>>, v: real): nat {
    if list == [] then 0
    else CountAtLeast(list[..|list|-1], v) + if list[|list|-1].fitness >= v then 1 else 0
  }

  lemma {:induction false} InsertDescends<R>(e: Evaluated<R>, ranked: seq<Evaluated<R>>)
    requires Descending(ranked)
    ensures var r := Insert(e, ranked);
            Descending(r) && |r| == |ranked| + 1 && forall i :: 0 <= i < |r| ==> r[i] == e || r[i] in ranked
  {
    if ranked != [] && ranked[|ranked|-1].fitness < e.fitness {
      InsertDescends(e, ranked[..|ranked|-1]);
    }
  }

  lemma {:induction false} InsertCounts<R>(e: Evaluated<R>, ranked: seq<Evaluated<R>>, v: real)
    ensures CountAtLeast(Insert(e, ranked), v) == CountAtLeast(ranked, v) + (if e.fitness >= v then 1 else 0)
  {
    if ranked == [] || ranked[|ranked|-1].fitness >= e.fitness {
      assert (ranked + [e])[..|ranked|] == ranked;
    } else {
      var r := Insert(e, ranked[..|ranked|-1]);
      InsertCounts(e, ranked[..|ranked|-1], v);
      assert (r + [ranked[|ranked|-1]])[..|r|] == r;
    }
  }

  lemma {:induction false} InsertPermutes<R>(e: Evaluated<R>, ranked: seq<Evaluated<R>>)
    ensures multiset(Insert(e, ranked)) == multiset(ranked) + multiset{e}
  {
    if ranked != [] && ranked[|ranked|-1].fitness < e.fitness {
      InsertPermutes(e, ranked[..|ranked|-1]);
      assert ranked == ranked[..|ranked|-1] + [ranked[|ranked|-1]];
    }
  }

  lemma {:induction false} RankedDescends<R>(list: seq<Evaluated<R>>)
    ensures Descending(Ranked(list)) && |Ranked(list)| == |list|
  {
    if list != [] {
      RankedDescends(list[..|list|-1]);
      InsertDescends(list[|list|-1], Ranked(list[..|list|-1]));
    }
  }

  lemma {:induction false} RankedCounts<R>(list: seq<Evaluated<R>>, v: real)
    ensures CountAtLeast(Ranked(list), v) == CountAtLeast(list, v)
  {
    if list != [] {
      RankedCounts(list[..|list|-1], v);
      InsertCounts(list[|list|-1], Ranked(list[..|list|-1]), v);
    }
  }

  lemma {:induction false} RankedPermutes<R>(list: seq<Evaluated<R>>)
    ensures multiset(Ranked(list)) == multiset(list)
  {
    if list != [] {
      RankedPermutes(list[..|list|-1]);
      InsertPermutes(list[|list|-1], Ranked(list[..|list|-1]));
      assert list == list[..|list|-1] + [list[|list|-1]];
    }
  }

  lemma {:induction false} CountSplit<R>(list: seq<Evaluated<R>>, k: nat, v: real)
    requires k <= |list|
    ensures (forall i :: 0 <= i < k ==> list[i].fitness >= v) ==> CountAtLeast(list, v) >= k
    ensures (forall i :: k <= i < |list| ==> list[i].fitness < v) ==> CountAtLeast(list, v) <= k
  {
    if k < |list| {
      CountSplit(list[..|list|-1], k, v);
    } else if list != [] {
      CountSplit(list[..|list|-1], k - 1, v);
    }
  }

  /** If the best eight of a ranking lead the next population, each of the eight best of the next
      ranking is at least as fit as its predecessor. */
  lemma KthBestKept<R>(ranked: seq<Evaluated<R>>, list: seq<Evaluated<R>>, k: nat)
    requires Descending(ranked) && ELITE <= |ranked| && ELITE <= |list| && k < ELITE
    requires forall i :: 0 <= i < ELITE ==> list[i].fitness == ranked[i].fitness
    ensures |Ranked(list)| == |list| && Ranked(list)[k].fitness >= ranked[k].fitness
  {
    hide Ranked, CountAtLeast;
    var v := ranked[k].fitness;
    RankedDescends(list);
    RankedCounts(list, v);
    CountSplit(list, k + 1, v);
    CountSplit(Ranked(list), k, v);
  }

  /** Ranking looks at fitness alone: lists paired entry by entry at equal fitness have rankings
      paired entry by entry. */
  ghost predicate Paired<A, B>(pairs: set<(A, B)>, s: seq<Evaluated<A>>, t: seq<Evaluated<B>>) {
    |s| == |t| && forall i :: 0 <= i < |s| ==> (s[i].rule, t[i].rule) in pairs && s[i].fitness == t[i].fitness
  }

  lemma {:induction false} InsertPaired<A, B>(pairs: set<(A, B)>, e: Evaluated<A>, s: seq<Evaluated<A>>,
                                              f: Evaluated<B>, t: seq<Evaluated<B>>)
    requires Paired(pairs, s, t) && (e.rule, f.rule) in pairs && e.fitness == f.fitness
    ensures Paired(pairs, Insert(e, s), Insert(f, t))
  {
    if s != [] && s[|s|-1].fitness < e.fitness {
      InsertPaired(pairs, e, s[..|s|-1], f, t[..|t|-1]);
    }
  }

  lemma {:induction false} RankedPaired<A, B>(pairs: set<(A, B)>, s: seq<Evaluated<A>>, t: seq<Evaluated<B>>)
    requires Paired(pairs, s, t)
    ensures Paired(pairs, Ranked(s), Ranked(t))
  {
    if s != [] {
      RankedPaired(pairs, s[..|s|-1], t[..|t|-1]);
      InsertPaired(pairs, s[|s|-1], Ranked(s[..|s|-1]), t[|t|-1], Ranked(t[..|t|-1]));
    }
  }

  // ----- rankings over time -----

  function Fitnesses<R>(list: seq<Evaluated<R>>): (r: seq<real>)
    ensures |r| == |list| && forall i :: 0 <= i < |r| ==> r[i] == list[i].fitness
  {
    seq(|list|, i requires 0 <= i < |list| => list[i].fitness)
  }

  ghost predicate NoWorse(before: seq<real>, after: seq<real>) {
    ELITE <= |before| && ELITE <= |after| && forall k :: 0 <= k < ELITE ==> before[k] <= after[k]
  }

  /** Each of the eight best is at least as fit in every generation as in all earlier ones. */
  ghost predicate NeverWorse(history: seq<seq<real>>) {
    forall g, h :: 0 <= g < h < |history| ==> NoWorse(history[g], history[h])
  }

  lemma NextRanking<R>(ranked: seq<Evaluated<R>>, list: seq<Evaluated<R>>)
    requires Descending(ranked) && ELITE <= |ranked| && ELITE <= |list|
    requires forall i :: 0 <= i < ELITE ==> list[i].fitness == ranked[i].fitness
    ensures NoWorse(Fitnesses(ranked), Fitnesses(Ranked(list)))
  {
    forall k: nat | k < ELITE ensures |Ranked(list)| == |list| && ranked[k].fitness <= Ranked(list)[k].fitness {
      KthBestKept(ranked, list, k);
    }
    RankedDescends(list);
  }

  // ----- the published choice -----

  /** A fit rule whose signature no earlier fit rule has. */
  ghost predicate IsFirst<S>(fitnesses: seq<real>, sigs: seq<S>, n: nat)
    requires |sigs| == |fitnesses|
  {
    n < |sigs| && fitnesses[n] > 0.0 && forall k :: 0 <= k < n && fitnesses[k] > 0.0 ==> sigs[k] != sigs[n]
  }

  lemma {:induction false} FirstExists<S>(fitnesses: seq<real>, sigs: seq<S>, n: nat) returns (f: nat)
    requires |sigs| == |fitnesses| && n < |sigs| && fitnesses[n] > 0.0
    ensures f <= n && IsFirst(fitnesses, sigs, f) && sigs[f] == sigs[n]
    decreases n
  {
    f := n;
    if k :| 0 <= k < n && fitnesses[k] > 0.0 && sigs[k] == sigs[n] {
      f := FirstExists(fitnesses, sigs, k);
    }
  }

  /** Which rules of a ranking to keep: the fit ones whose signature has not come before. */
  method FirstOfEach<S(==)>(fitnesses: seq<real>, sigs: seq<S>) returns (at: seq<nat>)
    requires |sigs| == |fitnesses|
    ensures forall j :: 0 <= j < |at| ==> IsFirst(fitnesses, sigs, at[j])
    ensures forall j, k :: 0 <= j < k < |at| ==> at[j] < at[k]
    ensures forall n: nat :: IsFirst(fitnesses, sigs, n) ==> n in at
  {
    at := [];
    var seen: set<S> := {};
    for i := 0 to |sigs|
      invariant seen == set k | 0 <= k < i && fitnesses[k] > 0.0 :: sigs[k]
      invariant forall j :: 0 <= j < |at| ==> at[j] < i && IsFirst(fitnesses, sigs, at[j])
      invariant forall j, k :: 0 <= j < k < |at| ==> at[j] < at[k]
      invariant forall n: nat :: n < i && IsFirst(fitnesses, sigs, n) ==> n in at
    {
      if fitnesses[i] > 0.0 {
        assert sigs[i] !in seen <==> IsFirst(fitnesses, sigs, i);
        if sigs[i] !in seen {
          at := at + [i];
        }
        seen := seen + {sigs[i]};
      }
    }
  }

  /** A fit rule repeats the signature of a chosen one at least as fit, or the choice is full of
      rules at least as fit. */
  ghost predicate Covered<S>(fitnesses: seq<real>, sigs: seq<S>, chosen: seq<nat>, k: nat)
    requires k < |sigs| == |fitnesses| && forall j :: 0 <= j < |chosen| ==> chosen[j] < |sigs|
  {
    || (exists j :: 0 <= j < |chosen| && sigs[chosen[j]] == sigs[k] && fitnesses[chosen[j]] >= fitnesses[k])
    || (|chosen| == PUBLISHED && forall j :: 0 <= j < |chosen| ==> fitnesses[chosen[j]] >= fitnesses[k])
  }

  /** What the published choice is: at most six fit rules in descending order with pairwise distinct
      signatures, covering every fit rule. */
  ghost predicate Published<S>(fitnesses: seq<real>, sigs: seq<S>, chosen: seq<nat>)
    requires |sigs| == |fitnesses|
  {
    && |chosen| <= PUBLISHED
    && (forall j :: 0 <= j < |chosen| ==> chosen[j] < |sigs| && fitnesses[chosen[j]] > 0.0)
    && (forall j, k :: 0 <= j < k < |chosen| ==>
          fitnesses[chosen[j]] >= fitnesses[chosen[k]] && sigs[chosen[j]] != sigs[chosen[k]])
    && (forall k :: 0 <= k < |sigs| && fitnesses[k] > 0.0 ==> Covered(fitnesses, sigs, chosen, k))
  }

  lemma PublishedInRange<S>(fitnesses: seq<real>, sigs: seq<S>, chosen: seq<nat>)
    requires |sigs| == |fitnesses| && Published(fitnesses, sigs, chosen)
    ensures forall j :: 0 <= j < |chosen| ==> chosen[j] < |sigs|
  {
  }

  lemma KeptArePublished<S>(fitnesses: seq<real>, sigs: seq<S>, at: seq<nat>)
    requires |sigs| == |fitnesses| && forall a, b :: 0 <= a < b < |fitnesses| ==> fitnesses[a] >= fitnesses[b]
    requires forall i :: 0 <= i < |at| ==> IsFirst(fitnesses, sigs, at[i])
    requires forall a, b :: 0 <= a < b < |at| ==> at[a] < at[b]
    requires forall n: nat :: IsFirst(fitnesses, sigs, n) ==> n in at
    ensures Published(fitnesses, sigs, if |at| <= PUBLISHED then at else at[..PUBLISHED])
  {
    var chosen := if |at| <= PUBLISHED then at else at[..PUBLISHED];
    KeptAreFirsts(fitnesses, sigs, chosen);
    hide IsFirst;
    forall k | 0 <= k < |sigs| && fitnesses[k] > 0.0 ensures Covered(fitnesses, sigs, chosen, k) {
      var j := KeptCover(fitnesses, sigs, at, k);
      assert j < |chosen| ==> sigs[chosen[j]] == sigs[k];
      assert forall i :: 0 <= i < |chosen| ==> chosen[i] == at[i];
    }
    hide Covered;
  }

  /** A fit rule shares its signature with a kept rule no later than itself, before which every
      kept rule is at least as fit. */
  lemma KeptCover<S>(fitnesses: seq<real>, sigs: seq<S>, at: seq<nat>, k: nat) returns (j: nat)
    requires |sigs| == |fitnesses| && k < |sigs| && fitnesses[k] > 0.0
    requires forall a, b :: 0 <= a < b < |fitnesses| ==> fitnesses[a] >= fitnesses[b]
    requires forall i :: 0 <= i < |at| ==> IsFirst(fitnesses, sigs, at[i])
    requires forall a, b :: 0 <= a < b < |at| ==> at[a] < at[b]
    requires forall n: nat :: IsFirst(fitnesses, sigs, n) ==> n in at
    ensures j < |at| && at[j] < |sigs| && sigs[at[j]] == sigs[k]
    ensures forall i :: 0 <= i <= j ==> at[i] < |sigs| && fitnesses[at[i]] >= fitnesses[k]
  {
    KeptAreFirsts(fitnesses, sigs, at);
    hide IsFirst;
    var f := FirstExists(fitnesses, sigs, k);
    j :| 0 <= j < |at| && at[j] == f;
    forall i | 0 <= i <= j ensures fitnesses[at[i]] >= fitnesses[k] {
      assert at[i] <= at[j];
    }
  }

  lemma KeptAreFirsts<S>(fitnesses: seq<real>, sigs: seq<S>, at: seq<nat>)
    requires |sigs| == |fitnesses| && forall j :: 0 <= j < |at| ==> IsFirst(fitnesses, sigs, at[j])
    requires forall j, k :: 0 <= j < k < |at| ==> at[j] < at[k]
    ensures forall j :: 0 <= j < |at| ==> at[j] < |sigs| && fitnesses[at[j]] > 0.0
    ensures forall j, k :: 0 <= j < k < |at| ==> sigs[at[j]] != sigs[at[k]]
  {
  }

  function PickAll<R>(list: seq<Evaluated<R>>, at: seq<nat>): (r: seq<Evaluated<R>>)
    requires forall j :: 0 <= j < |at| ==> at[j] < |list|
    ensures |r| == |at| && forall j :: 0 <= j < |r| ==> r[j] == list[at[j]]
  {
    seq(|at|, j requires 0 <= j < |at| => list[at[j]])
  }
}
