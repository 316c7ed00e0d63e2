/** Trading rules and how new ones are made. The conditions of a rule are objects that mutation
    edits in place; random choices are inputs. */
module RuleBreeding {
  const MIN_SIGNALS: nat := 15

  datatype Op = Above | Below

  datatype Cond = Cond(key: string, op: Op, thr: real)

  class Condition {
    const key: string
    const op: Op
    var thr: real

    constructor (c: Cond)
      ensures Value() == c
    {
      key, op, thr := c.key, c.op, c.thr;
    }

    function Value(): Cond
      reads this
    {
      Cond(key, op, thr)
    }
  }

  function Genes(rule: seq<Condition>): (g: seq<Cond>)
    reads rule
    ensures |g| == |rule| && forall i :: 0 <= i < |g| ==> g[i] == rule[i].Value()
  {
    seq(|rule|, i requires 0 <= i < |rule| reads rule => rule[i].Value())
  }

  // ----- fitness -----

  datatype Sample = Sample(features: map<string, real>, up: bool)

  function Feature(s: Sample, key: string): real {
    if key in s.features then s.features[key] else 0.0
  }

  predicate Fires(genes: seq<Cond>, s: Sample) {
    forall i :: 0 <= i < |genes| ==>
      var v := Feature(s, genes[i].key);
      if genes[i].op.Above? then v > genes[i].thr else v < genes[i].thr
  }

  function Signals(genes: seq<Cond>, samples: seq<Sample>): set<nat> {
    set i: nat | i < |samples| && Fires(genes, samples[i])
  }

  function Ups(genes: seq<Cond>, samples: seq<Sample>): set<nat> {
    set i: nat | i < |samples| && Fires(genes, samples[i]) && samples[i].up
  }

  /** `score` is the rounded fitness of so many rises among so many signals; rules that fire too
      rarely, or on most samples, score zero. */
  function Fitness(score: (nat, nat) -> real, genes: seq<Cond>, samples: seq<Sample>): real {
    var signals := |Signals(genes, samples)|;
    if signals < MIN_SIGNALS || signals as real > |samples| as real * 0.55 then 0.0
    else score(|Ups(genes, samples)|, signals)
  }

  lemma OneMoreSample(genes: seq<Cond>, samples: seq<Sample>, n: nat)
    requires n < |samples|
    ensures |Signals(genes, samples[..n+1])| == |Signals(genes, samples[..n])| + (if Fires(genes, samples[n]) then 1 else 0)
    ensures |Ups(genes, samples[..n+1])| == |Ups(genes, samples[..n])| + (if Fires(genes, samples[n]) && samples[n].up then 1 else 0)
  {
    hide Fires;
    assert Signals(genes, samples[..n+1]) == Signals(genes, samples[..n]) + (if Fires(genes, samples[n]) then {n} else {});
    assert Ups(genes, samples[..n+1]) == Ups(genes, samples[..n]) + (if Fires(genes, samples[n]) && samples[n].up then {n} else {});
  }

  method Evaluate(score: (nat, nat) -> real, rule: seq<Condition>, samples: seq<Sample>) returns (fitness: real)
    ensures fitness == Fitness(score, Genes(rule), samples)
  {
    hide Fires, Signals, Ups;
    var genes := Genes(rule);
    var signals, ups := 0, 0;
    NoSamples(genes, samples);
    for i := 0 to |samples|
      invariant signals == |Signals(genes, samples[..i])| && ups == |Ups(genes, samples[..i])|
    {
      OneMoreSample(genes, samples, i);
      if Fires(genes, samples[i]) {
        signals := signals + 1;
        ups := ups + if samples[i].up then 1 else 0;
      }
    }
    assert samples[..|samples|] == samples;
    if signals < MIN_SIGNALS {
      return 0.0;
    }
    if signals as real > |samples| as real * 0.55 {
      return 0.0;
    }
    fitness := score(ups, signals);
  }

  lemma NoSamples(genes: seq<Cond>, samples: seq<Sample>)
    ensures Signals(genes, samples[..0]) == {} && Ups(genes, samples[..0]) == {}
  {
  }

  /** What the sample holds under the condition's key, zero if nothing, is above or below the threshold. */
  ghost predicate Holds(c: Cond, s: Sample) {
    && (c.key in s.features && c.op.Above? ==> s.features[c.key] > c.thr)
    && (c.key in s.features && c.op.Below? ==> s.features[c.key] < c.thr)
    && (c.key !in s.features && c.op.Above? ==> c.thr < 0.0)
    && (c.key !in s.features && c.op.Below? ==> c.thr > 0.0)
  }

  /** The fitness is the score of the rises among the samples on which all conditions hold, unless those
      are fewer than fifteen or more than 55 percent of the samples. */
  lemma FitnessMeans(score: (nat, nat) -> real, genes: seq<Cond>, samples: seq<Sample>)
    ensures var hits := set i: nat | i < |samples| && forall c <- genes :: Holds(c, samples[i]);
            var rises := set i | i in hits && samples[i].up;
            Fitness(score, genes, samples)
              == if |hits| < 15 || 100 * |hits| > 55 * |samples| then 0.0 else score(|rises|, |hits|)
  {
    var hits := set i: nat | i < |samples| && forall c <- genes :: Holds(c, samples[i]);
    var rises := set i | i in hits && samples[i].up;
    forall s: Sample ensures Fires(genes, s) <==> forall c <- genes :: Holds(c, s) {
      if forall c <- genes :: Holds(c, s) {
        assert forall i :: 0 <= i < |genes| ==> Holds(genes[i], s);
      }
    }
    assert hits == Signals(genes, samples) && rises == Ups(genes, samples);
  }

  /** Making one condition stricter never adds a signal. */
  lemma StricterSignalsLess(genes: seq<Cond>, i: nat, thr: real, samples: seq<Sample>)
    requires i < |genes| && (if genes[i].op.Above? then thr >= genes[i].thr else thr <= genes[i].thr)
    ensures Signals(genes[i := genes[i].(thr := thr)], samples) <= Signals(genes, samples)
  {
    var stricter := genes[i := genes[i].(thr := thr)];
    forall s: Sample | Fires(stricter, s) ensures Fires(genes, s) {
      forall k | 0 <= k < |genes|
        ensures var v := Feature(s, genes[k].key); if genes[k].op.Above? then v > genes[k].thr else v < genes[k].thr
      {
        assert stricter[k].key == genes[k].key && stricter[k].op == genes[k].op;
      }
    }
  }

  // ----- breeding -----

  /** The choices one mutation makes: which branch, which position, a new condition, and a new
      threshold for an existing one. */
  datatype Dice = Dice(roll: real, pick: real, cond: Cond, threshold: Cond -> real)

  predicate Fair(r: real) {
    0.0 <= r < 1.0
  }

  function Pick(pick: real, n: nat): (i: nat)
    requires Fair(pick) && n > 0
    ensures i < n
  {
    assert 0.0 <= pick * n as real < n as real;
    (pick * n as real).Floor
  }

  /** What mutation makes of a rule's conditions. */
  function Mutated(g: seq<Cond>, d: Dice): seq<Cond>
    requires Fair(d.pick)
  {
    if d.roll < 0.4 && g != [] then
      var i := Pick(d.pick, |g|);
      g[i := g[i].(thr := d.threshold(g[i]))]
    else if d.roll < 0.7 then
      if g == [] then [d.cond] else g[Pick(d.pick, |g|) := d.cond]
    else if d.roll < 0.85 && |g| < 3 then g + [d.cond]
    else if |g| > 2 then
      var i := Pick(d.pick, |g|);
      g[..i] + g[i+1..]
    else g
  }

  /** One position of the rule holds something else. */
  ghost predicate Replaced(g: seq<Cond>, r: seq<Cond>, i: nat, c: Cond) {
    i < |g| == |r| && r[i] == c && forall k :: 0 <= k < |g| && k != i ==> r[k] == g[k]
  }

  /** Below 0.4 a condition gets a new threshold, below 0.7 it is replaced, below 0.85 a short rule
      gains one; otherwise a rule of three loses one and any other stays. */
  lemma MutationByRoll(g: seq<Cond>, d: Dice)
    requires Fair(d.pick)
    ensures var r := Mutated(g, d);
            && (g == [] && d.roll < 0.85 ==> r == [d.cond])
            && (g != [] && d.roll < 0.4 ==> exists i :: 0 <= i < |g| && Replaced(g, r, i, Cond(g[i].key, g[i].op, d.threshold(g[i]))))
            && (g != [] && 0.4 <= d.roll < 0.7 ==> exists i :: 0 <= i < |g| && Replaced(g, r, i, d.cond))
            && (0.7 <= d.roll < 0.85 && |g| < 3 ==> r == g + [d.cond])
            && (0.7 <= d.roll && |g| >= 3 ==> exists i :: 0 <= i < |g| && r == g[..i] + g[i+1..])
            && (0.85 <= d.roll && |g| < 3 ==> r == g)
  {
    if g != [] {
      var i := Pick(d.pick, |g|);
      hide Pick;
      var r := Mutated(g, d);
      if d.roll < 0.4 {
        assert Replaced(g, r, i, Cond(g[i].key, g[i].op, d.threshold(g[i])));
      } else if d.roll < 0.7 {
        assert Replaced(g, r, i, d.cond);
      }
    }
  }

  method CopyOf(rule: seq<Condition>) returns (copy: seq<Condition>)
    ensures Genes(copy) == Genes(rule)
    ensures forall i :: 0 <= i < |copy| ==> fresh(copy[i])
    ensures forall i, j :: 0 <= i < j < |copy| ==> copy[i] != copy[j]
  {
    copy := [];
    for n := 0 to |rule|
      invariant |copy| == n
      invariant forall i :: 0 <= i < n ==> fresh(copy[i]) && copy[i].Value() == rule[i].Value()
      invariant forall i, j :: 0 <= i < j < n ==> copy[i] != copy[j]
    {
      var c := new Condition(rule[n].Value());
      copy := copy + [c];
    }
  }

  method MoveThreshold(conds: seq<Condition>, i: nat, thr: real)
    requires i < |conds| && forall a, b :: 0 <= a < b < |conds| ==> conds[a] != conds[b]
    modifies conds[i]
    ensures Genes(conds) == old(Genes(conds))[i := old(conds[i].Value()).(thr := thr)]
  {
    conds[i].thr := thr;
  }

  /** Mutation edits a copy: it has no frame, so no condition that existed before can change. */
  method Mutate(rule: seq<Condition>, d: Dice) returns (r: seq<Condition>)
    requires Fair(d.pick)
    ensures forall i :: 0 <= i < |r| ==> fresh(r[i])
    ensures Genes(r) == Mutated(old(Genes(rule)), d)
  {
    hide Pick, Genes;
    var conds := CopyOf(rule);
    ghost var g := Genes(conds);
    if d.roll < 0.4 && |conds| > 0 {
      var i := Pick(d.pick, |conds|);
      MoveThreshold(conds, i, d.threshold(conds[i].Value()));
    } else if d.roll < 0.7 {
      var c := new Condition(d.cond);
      conds := if |conds| == 0 then [c] else conds[Pick(d.pick, |conds|) := c];
      assert Genes(conds) == if |g| == 0 then [d.cond] else g[Pick(d.pick, |g|) := d.cond];
    } else if d.roll < 0.85 && |conds| < 3 {
      var c := new Condition(d.cond);
      conds := conds + [c];
      assert Genes(conds) == g + [d.cond];
    } else if |conds| > 2 {
      var i := Pick(d.pick, |conds|);
      conds := conds[..i] + conds[i+1..];
      assert Genes(conds) == g[..i] + g[i+1..];
    }
    r := conds;
  }

  function Keys(g: seq<Cond>): set<string> {
    set i | 0 <= i < |g| :: g[i].key
  }

  /** The first condition of every new key, until there are three. */
  function Crossed(pool: seq<Cond>): (g: seq<Cond>) {
    if pool == [] then []
    else
      var before, c := Crossed(pool[..|pool|-1]), pool[|pool|-1];
      if c.key in Keys(before) || |before| >= 3 then before else before + [c]
  }

  ghost predicate FairShuffle(shuffle: seq<Cond> -> seq<Cond>) {
    forall pool :: multiset(shuffle(pool)) == multiset(pool)
  }

  lemma KeysSnoc(g: seq<Cond>, c: Cond)
    ensures Keys(g + [c]) == Keys(g) + {c.key}
    ensures |Keys(g + [c])| == |Keys(g)| + (if c.key in Keys(g) then 0 else 1)
  {
    var r := g + [c];
    forall key | key in Keys(g) ensures key in Keys(r) {
      var i :| 0 <= i < |g| && g[i].key == key;
      assert r[i].key == key;
    }
    assert r[|g|].key in Keys(r);
    assert Keys(r) == Keys(g) + {c.key};
    assert c.key in Keys(g) ==> Keys(g) + {c.key} == Keys(g);
  }

  /** `shuffle` is what the randomly comparing sort does to both parents' conditions. */
  method Crossover(a: seq<Condition>, b: seq<Condition>, shuffle: seq<Cond> -> seq<Cond>) returns (r: seq<Condition>)
    requires FairShuffle(shuffle)
    ensures forall i :: 0 <= i < |r| ==> fresh(r[i])
    ensures Genes(r) == Crossed(old(shuffle(Genes(a) + Genes(b))))
  {
    hide Crossed, Keys;
    var pool := shuffle(Genes(a) + Genes(b));
    var used: set<string> := {};
    var conds: seq<Condition> := [];
    CrossedNothing(Genes(conds));
    for i := 0 to |pool|
      invariant forall k :: 0 <= k < |conds| ==> fresh(conds[k])
      invariant Genes(conds) == Crossed(pool[..i]) && used == Keys(Genes(conds))
    {
      CrossedOneMore(pool, i);
      var c := pool[i];
      if !(c.key in used || |conds| >= 3) {
        ghost var was := Genes(conds);
        var copy := new Condition(c);
        used := used + {c.key};
        conds := conds + [copy];
        assert Genes(conds) == was + [c];
        KeysSnoc(was, c);
      }
    }
    assert pool[..|pool|] == pool;
    r := conds;
  }

  lemma CrossedNothing(none: seq<Cond>)
    requires none == []
    ensures Crossed(none) == none && Keys(none) == {}
  {
  }

  lemma CrossedOneMore(pool: seq<Cond>, n: nat)
    requires n < |pool|
    ensures var before := Crossed(pool[..n]);
            Crossed(pool[..n+1]) == if pool[n].key in Keys(before) || |before| >= 3 then before else before + [pool[n]]
  {
    assert pool[..n+1][..n] == pool[..n];
  }

  predicate DistinctKeys(g: seq<Cond>) {
    forall i, j :: 0 <= i < j < |g| ==> g[i].key != g[j].key
  }

  /** A crossing has pairwise distinct keys, takes its conditions from the pool, and has as many
      as the pool has keys, up to three. */
  lemma CrossedShape(pool: seq<Cond>)
    ensures DistinctKeys(Crossed(pool))
    ensures forall i :: 0 <= i < |Crossed(pool)| ==> Crossed(pool)[i] in pool
    ensures |Crossed(pool)| == if |Keys(pool)| < 3 then |Keys(pool)| else 3
  {
    CrossedDistinct(pool);
    CrossedKeys(pool);
  }

  lemma {:induction false} CrossedDistinct(pool: seq<Cond>)
    ensures DistinctKeys(Crossed(pool)) && forall i :: 0 <= i < |Crossed(pool)| ==> Crossed(pool)[i] in pool
  {
    if pool != [] {
      var before, c := Crossed(pool[..|pool|-1]), pool[|pool|-1];
      CrossedDistinct(pool[..|pool|-1]);
      if c.key !in Keys(before) {
        NewKey(before, c);
      }
      hide Keys;
    }
  }

  lemma {:induction false} CrossedKeys(pool: seq<Cond>)
    ensures |Keys(Crossed(pool))| == |Crossed(pool)|
    ensures |Crossed(pool)| < 3 ==> Keys(Crossed(pool)) == Keys(pool)
    ensures |Crossed(pool)| == if |Keys(pool)| < 3 then |Keys(pool)| else 3
  {
    if pool == [] {
      CrossedNothing(pool);
    } else {
      var init, c := pool[..|pool|-1], pool[|pool|-1];
      CrossedKeys(init);
      assert pool == init + [c];
      KeysSnoc(init, c);
      KeysSnoc(Crossed(init), c);
      hide Keys;
    }
  }

  lemma {:induction false} CrossedGrows(pool: seq<Cond>, n: nat)
    requires n <= |pool|
    ensures Crossed(pool[..n]) <= Crossed(pool)
  {
    if n == |pool| {
      assert pool[..n] == pool;
    } else {
      assert pool[..|pool|-1][..n] == pool[..n];
      CrossedGrows(pool[..|pool|-1], n);
    }
  }

  /** Of each of the first three keys of the shuffled pool, crossing keeps the condition that comes
      first, in the order in which the keys come. */
  lemma CrossedFirsts(pool: seq<Cond>, i: nat)
    requires i < |pool| && (forall j :: 0 <= j < i ==> pool[j].key != pool[i].key) && |Keys(pool[..i])| < 3
    ensures |Keys(pool[..i])| < |Crossed(pool)| && Crossed(pool)[|Keys(pool[..i])|] == pool[i]
  {
    var init := pool[..i];
    CrossedKeys(init);
    CrossedOneMore(pool, i);
    CrossedGrows(pool, i + 1);
    hide Crossed;
    assert forall j :: 0 <= j < i ==> init[j] == pool[j];
    assert pool[i].key !in Keys(init);
  }

  lemma NewKey(g: seq<Cond>, c: Cond)
    requires DistinctKeys(g) && c.key !in Keys(g)
    ensures DistinctKeys(g + [c])
  {
  }

  /** Documented sizes are two or three conditions. Mutation keeps them. */
  lemma MutationKeepsSize(g: seq<Cond>, d: Dice)
    requires Fair(d.pick) && 2 <= |g| <= 3
    ensures 2 <= |Mutated(g, d)| <= 3
  {
  }

  /** Crossing falls below two conditions exactly when all the parents' conditions share one key,
      which mutation can bring about by replacing a condition. */
  lemma CrossingCanShrink(pool: seq<Cond>)
    requires pool != []
    ensures 1 <= |Crossed(pool)| <= 3
    ensures |Crossed(pool)| < 2 <==> forall i :: 0 <= i < |pool| ==> pool[i].key == pool[0].key
  {
    CrossedShape(pool);
    assert pool[0].key in Keys(pool);
    forall i | 0 <= i < |pool| && pool[i].key != pool[0].key ensures |Keys(pool)| >= 2 {
      var two := {pool[0].key, pool[i].key};
      assert Keys(pool) == two + (Keys(pool) - two);
    }
    if forall i :: 0 <= i < |pool| ==> pool[i].key == pool[0].key {
      assert Keys(pool) == {pool[0].key};
    }
  }

  /** Two steps are enough: replacing one condition of a rule with two keys can leave one key, and
      crossing the result with itself, however shuffled, leaves one condition. */
  lemma OneConditionIsReachable(shuffle: seq<Cond> -> seq<Cond>)
    requires FairShuffle(shuffle)
    ensures exists g: seq<Cond>, d: Dice ::
              |g| == 2 && DistinctKeys(g) && Fair(d.pick) && |Crossed(shuffle(Mutated(g, d) + Mutated(g, d)))| == 1
  {
    var g := [Cond("rsi", Above, 0.5), Cond("bbPos", Below, 0.2)];
    var d := Dice(0.5, 0.0, Cond("bbPos", Above, 0.8), (c: Cond) => c.thr);
    var m := Mutated(g, d);
    assert m == [Cond("bbPos", Above, 0.8), Cond("bbPos", Below, 0.2)];
    var pool := shuffle(m + m);
    assert |multiset(pool)| == |multiset(m + m)| == 4;
    forall i | 0 <= i < |pool| ensures pool[i].key == "bbPos" {
      assert pool[i] in multiset(m + m);
    }
    CrossingCanShrink(pool);
  }
}
