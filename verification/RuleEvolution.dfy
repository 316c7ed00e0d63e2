/** One evolution cycle: rank the rules by fitness, keep the elite, breed the rest, thirty times, then
    publish the best. The cycle on condition objects is proved to be the cycle on values. */
module RuleEvolution {
  import opened RuleBreeding
  import opened RuleRanking

  const POP_SIZE: nat := 40
  const GENERATIONS_PER_CYCLE: nat := 30
  const MIN_SAMPLES: nat := 100

  type Rule = seq<Condition>

  // ----- breeding one generation -----

  /** The choices behind one child: the roll between the three ways, two elite parents, the
      mutation's dice, the shuffling sort and a wholly random rule. */
  datatype Birth = Birth(roll: real, first: real, second: real, dice: Dice,
                         shuffle: seq<Cond> -> seq<Cond>, random: seq<Cond>)

  ghost predicate FairBirth(b: Birth) {
    && Fair(b.first) && Fair(b.second) && Fair(b.dice.pick) && FairShuffle(b.shuffle)
  }

  method RuleOf(g: seq<Cond>) returns (r: Rule)
    ensures Genes(r) == g && forall i :: 0 <= i < |r| ==> fresh(r[i])
  {
    r := [];
    for i := 0 to |g|
      invariant |r| == i && Genes(r) == g[..i]
      invariant forall k :: 0 <= k < |r| ==> fresh(r[k])
    {
      var c := new Condition(g[i]);
      r := r + [c];
    }
  }

  /** The conditions of the child a birth makes of its two parents. */
  ghost function Bred(b: Birth, first: seq<Cond>, second: seq<Cond>): seq<Cond>
    requires FairBirth(b)
  {
    if b.roll < 0.45 then Mutated(first, b.dice)
    else if b.roll < 0.75 then Crossed(b.shuffle(first + second))
    else b.random
  }

  function Parent(elites: seq<Evaluated<Rule>>, choice: real): Rule
    requires |elites| == ELITE && Fair(choice)
  {
    elites[Pick(choice, ELITE)].rule
  }

  method Breed(b: Birth, first: Rule, second: Rule) returns (child: Rule)
    requires FairBirth(b)
    ensures Genes(child) == Bred(b, old(Genes(first)), old(Genes(second)))
    ensures forall i :: 0 <= i < |child| ==> fresh(child[i])
  {
    if b.roll < 0.45 {
      child := Mutate(first, b.dice);
    } else if b.roll < 0.75 {
      child := Crossover(first, second, b.shuffle);
    } else {
      child := RuleOf(b.random);
    }
  }

  method NextGeneration(elites: seq<Evaluated<Rule>>, births: nat -> Birth) returns (next: seq<Rule>)
    requires |elites| == ELITE && forall k :: FairBirth(births(k))
    ensures |next| == POP_SIZE
    ensures forall i :: 0 <= i < ELITE ==> next[i] == elites[i].rule
    ensures forall k :: ELITE <= k < POP_SIZE ==>
              FairBirth(births(k))
              && Genes(next[k]) == Bred(births(k), Genes(Parent(elites, births(k).first)), Genes(Parent(elites, births(k).second)))
  {
    hide Bred, Pick;
    next := seq(ELITE, i requires 0 <= i < ELITE => elites[i].rule);
    while |next| < POP_SIZE
      invariant ELITE <= |next| <= POP_SIZE
      invariant forall i :: 0 <= i < ELITE ==> next[i] == elites[i].rule
      invariant forall k :: ELITE <= k < |next| ==>
                  FairBirth(births(k))
                  && Genes(next[k]) == Bred(births(k), Genes(Parent(elites, births(k).first)), Genes(Parent(elites, births(k).second)))
    {
      var b := births(|next|);
      assert FairBirth(b);
      var child := Breed(b, Parent(elites, b.first), Parent(elites, b.second));
      next := next + [child];
    }
  }

  // ----- the cycle on values -----

  /** What a cycle depends on beside the saved rules: the fitness of counts, the samples, the choices
      of every birth, and the random rules that fill up a small population. */
  datatype Setup = Setup(score: (nat, nat) -> real, samples: seq<Sample>, births: (nat, nat) -> Birth, randoms: nat -> seq<Cond>)

  ghost predicate FairSetup(x: Setup) {
    forall g, k :: FairBirth(x.births(g, k))
  }

  function Filled(x: Setup, pop: seq<seq<Cond>>): (r: seq<seq<Cond>>)
    ensures |r| == if |pop| >= POP_SIZE then |pop| else POP_SIZE
    ensures pop <= r && forall k :: |pop| <= k < |r| ==> r[k] == x.randoms(k)
    decreases POP_SIZE - |pop|
  {
    if |pop| >= POP_SIZE then pop else Filled(x, pop + [x.randoms(|pop|)])
  }

  function Graded(x: Setup, pop: seq<seq<Cond>>): (r: seq<Evaluated<seq<Cond>>>)
    ensures |r| == |pop|
    ensures forall i :: 0 <= i < |pop| ==> r[i] == Evaluated(pop[i], Fitness(x.score, pop[i], x.samples))
  {
    seq(|pop|, i requires 0 <= i < |pop| => Evaluated(pop[i], Fitness(x.score, pop[i], x.samples)))
  }

  function RankingOf(x: Setup, pop: seq<seq<Cond>>): (r: seq<Evaluated<seq<Cond>>>)
    ensures |r| == |pop| && Descending(r)
  {
    RankedDescends(Graded(x, pop));
    Ranked(Graded(x, pop))
  }

  ghost function ChildOf(b: Birth, ranking: seq<Evaluated<seq<Cond>>>): seq<Cond>
    requires ELITE <= |ranking| && FairBirth(b)
  {
    Bred(b, ranking[Pick(b.first, ELITE)].rule, ranking[Pick(b.second, ELITE)].rule)
  }

  /** The elite, then one child for each remaining place. */
  ghost function Offspring(x: Setup, g: nat, ranking: seq<Evaluated<seq<Cond>>>): (r: seq<seq<Cond>>)
    requires FairSetup(x) && ELITE <= |ranking|
    ensures |r| == POP_SIZE
    ensures forall k :: 0 <= k < ELITE ==> r[k] == ranking[k].rule
    ensures forall k :: ELITE <= k < POP_SIZE ==> r[k] == ChildOf(x.births(g, k), ranking)
  {
    seq(POP_SIZE, k requires 0 <= k < POP_SIZE => if k < ELITE then ranking[k].rule else ChildOf(x.births(g, k), ranking))
  }

  /** The population of generation g, from the saved rules. */
  ghost function PopulationAt(x: Setup, saved: seq<seq<Cond>>, g: nat): (r: seq<seq<Cond>>)
    requires FairSetup(x)
    ensures POP_SIZE <= |r| && (g > 0 ==> |r| == POP_SIZE)
  {
    if g == 0 then Filled(x, saved)
    else Offspring(x, g - 1, RankingOf(x, PopulationAt(x, saved, g - 1)))
  }

  ghost function RankingAt(x: Setup, saved: seq<seq<Cond>>, g: nat): (r: seq<Evaluated<seq<Cond>>>)
    requires FairSetup(x)
    ensures POP_SIZE <= |r| && (g > 0 ==> |r| == POP_SIZE) && Descending(r)
  {
    RankingOf(x, PopulationAt(x, saved, g))
  }

  /** Every ranked rule carries its own fitness, and every rule of the population is ranked. */
  lemma RankedOwnFitness(x: Setup, pop: seq<seq<Cond>>)
    ensures forall e <- RankingOf(x, pop) :: e.rule in pop && e.fitness == Fitness(x.score, e.rule, x.samples)
    ensures forall rule <- pop :: Evaluated(rule, Fitness(x.score, rule, x.samples)) in RankingOf(x, pop)
  {
    hide Fitness, Ranked;
    var graded := Graded(x, pop);
    RankedPermutes(graded);
    forall e <- RankingOf(x, pop) ensures e.rule in pop && e.fitness == Fitness(x.score, e.rule, x.samples) {
      assert e in multiset(graded);
    }
    forall rule <- pop ensures Evaluated(rule, Fitness(x.score, rule, x.samples)) in RankingOf(x, pop) {
      var i :| 0 <= i < |pop| && pop[i] == rule;
      assert graded[i] in multiset(graded);
      assert graded[i] in multiset(RankingOf(x, pop));
    }
  }

  lemma NextIsNoWorse(x: Setup, saved: seq<seq<Cond>>, g: nat)
    requires FairSetup(x)
    ensures NoWorse(Fitnesses(RankingAt(x, saved, g)), Fitnesses(RankingAt(x, saved, g + 1)))
  {
    hide Fitness, Ranked, Bred, Pick;
    var ranking, pop := RankingAt(x, saved, g), PopulationAt(x, saved, g + 1);
    RankedOwnFitness(x, PopulationAt(x, saved, g));
    assert pop == Offspring(x, g, ranking);
    forall i | 0 <= i < ELITE ensures Graded(x, pop)[i].fitness == ranking[i].fitness {
      assert ranking[i] in RankingOf(x, PopulationAt(x, saved, g));
    }
    NextRanking(ranking, Graded(x, pop));
  }

  /** Over the generations of a cycle each of the eight best fitnesses never falls. */
  lemma {:induction false} GenerationsNeverWorse(x: Setup, saved: seq<seq<Cond>>, g: nat, h: nat)
    requires FairSetup(x) && g <= h
    ensures NoWorse(Fitnesses(RankingAt(x, saved, g)), Fitnesses(RankingAt(x, saved, h)))
    decreases h
  {
    hide RankingAt;
    if g < h {
      GenerationsNeverWorse(x, saved, g, h - 1);
      NextIsNoWorse(x, saved, h - 1);
    }
  }

  // ----- the cycle on condition objects -----

  method EvaluateAll(score: (nat, nat) -> real, samples: seq<Sample>, pop: seq<Rule>) returns (list: seq<Evaluated<Rule>>)
    ensures |list| == |pop| && forall i :: 0 <= i < |pop| ==> list[i].rule == pop[i]
    ensures forall i :: 0 <= i < |list| ==> list[i].fitness == Fitness(score, Genes(list[i].rule), samples)
  {
    list := [];
    for i := 0 to |pop|
      invariant |list| == i && forall k :: 0 <= k < i ==> list[k].rule == pop[k]
      invariant forall i :: 0 <= i < |list| ==> list[i].fitness == Fitness(score, Genes(list[i].rule), samples)
    {
      var fitness := Evaluate(score, pop[i], samples);
      list := list + [Evaluated(pop[i], fitness)];
    }
  }

  /** Signatures are equal exactly when two rules have the same conditions in any order. */
  function Signature(rule: Rule): multiset<Cond>
    reads rule
  {
    multiset(Genes(rule))
  }

  method Signatures(list: seq<Evaluated<Rule>>) returns (sigs: seq<multiset<Cond>>)
    ensures |sigs| == |list| && forall i :: 0 <= i < |list| ==> sigs[i] == Signature(list[i].rule)
  {
    sigs := [];
    for i := 0 to |list|
      invariant |sigs| == i && forall k :: 0 <= k < i ==> sigs[k] == Signature(list[k].rule)
    {
      sigs := sigs + [Signature(list[i].rule)];
    }
  }

  method Publish(evaluated: seq<Evaluated<Rule>>)
    returns (best: seq<Evaluated<Rule>>, sigs: seq<multiset<Cond>>, chosen: seq<nat>)
    requires Descending(evaluated)
    ensures |sigs| == |evaluated| && forall i :: 0 <= i < |sigs| ==> sigs[i] == Signature(evaluated[i].rule)
    ensures Published(Fitnesses(evaluated), sigs, chosen) && best == PickAll(evaluated, chosen)
  {
    hide Signature, IsFirst, Published;
    var all := Signatures(evaluated);
    var at := FirstOfEach(Fitnesses(evaluated), all);
    KeptArePublished(Fitnesses(evaluated), all, at);
    var kept := if |at| <= PUBLISHED then at else at[..PUBLISHED];
    PublishedInRange(Fitnesses(evaluated), all, kept);
    sigs, chosen, best := all, kept, PickAll(evaluated, kept);
  }

  /** Evaluates and ranks a population; `values` are the conditions of its rules. */
  method RankPopulation(x: Setup, pop: seq<Rule>, ghost values: seq<seq<Cond>>) returns (evaluated: seq<Evaluated<Rule>>)
    requires |pop| == |values| && forall i :: 0 <= i < |pop| ==> Genes(pop[i]) == values[i]
    ensures |evaluated| == |pop| && Descending(evaluated)
    ensures forall i :: 0 <= i < |pop| ==>
              Genes(evaluated[i].rule) == RankingOf(x, values)[i].rule && evaluated[i].fitness == RankingOf(x, values)[i].fitness
  {
    hide Fitness, Ranked;
    var list := EvaluateAll(x.score, x.samples, pop);
    RankedDescends(list);
    evaluated := Ranked(list);
    ghost var pairs := set i | 0 <= i < |pop| :: (pop[i], values[i]);
    assert Paired(pairs, list, Graded(x, values));
    RankedPaired(pairs, list, Graded(x, values));
  }

  /** Fills up the saved rules with random ones. */
  method FillUp(x: Setup, saved: seq<Rule>, ghost values: seq<seq<Cond>>) returns (pop: seq<Rule>)
    requires |saved| == |values| && forall i :: 0 <= i < |saved| ==> Genes(saved[i]) == values[i]
    ensures |pop| == |Filled(x, values)| && forall i :: 0 <= i < |pop| ==> Genes(pop[i]) == Filled(x, values)[i]
  {
    pop := saved;
    ghost var filled := values;
    while |pop| < POP_SIZE
      invariant |pop| == |filled| && Filled(x, filled) == Filled(x, values)
      invariant forall i :: 0 <= i < |pop| ==> Genes(pop[i]) == filled[i]
      decreases POP_SIZE - |pop|
    {
      var filler := RuleOf(x.randoms(|pop|));
      pop := pop + [filler];
      filled := filled + [x.randoms(|filled|)];
    }
  }

  /** The next population, whose conditions are the offspring of the ranking. */
  method NextPopulation(x: Setup, g: nat, evaluated: seq<Evaluated<Rule>>, ghost ranking: seq<Evaluated<seq<Cond>>>)
    returns (pop: seq<Rule>)
    requires FairSetup(x) && ELITE <= |evaluated| == |ranking|
    requires forall i :: 0 <= i < |evaluated| ==> Genes(evaluated[i].rule) == ranking[i].rule
    ensures |pop| == POP_SIZE && forall k :: 0 <= k < POP_SIZE ==> Genes(pop[k]) == Offspring(x, g, ranking)[k]
  {
    hide Bred, Pick;
    pop := NextGeneration(evaluated[..ELITE], (k: nat) => x.births(g, k));
  }

  datatype CycleResult = TooFewSamples | Evolved(population: seq<Evaluated<Rule>>, best: seq<Evaluated<Rule>>)

  /** A whole cycle. Nothing that existed before it is modified, and the final population is the
      ranking of generation thirty on values; `start` are the conditions of the saved rules. */
  method EvolveCycle(x: Setup, saved: seq<Rule>, ghost start: seq<seq<Cond>>)
    returns (r: CycleResult, ghost history: seq<seq<real>>, ghost sigs: seq<multiset<Cond>>, ghost chosen: seq<nat>)
    requires FairSetup(x)
    requires |saved| == |start| && forall i :: 0 <= i < |saved| ==> Genes(saved[i]) == start[i]
    ensures r.TooFewSamples? <==> |x.samples| < MIN_SAMPLES
    ensures r.Evolved? ==>
              && |r.population| == POP_SIZE
              && (forall i :: 0 <= i < POP_SIZE ==>
                    Genes(r.population[i].rule) == RankingAt(x, start, GENERATIONS_PER_CYCLE)[i].rule
                    && r.population[i].fitness == RankingAt(x, start, GENERATIONS_PER_CYCLE)[i].fitness)
              && |history| == GENERATIONS_PER_CYCLE + 1 && NeverWorse(history)
              && forall g :: 0 <= g <= GENERATIONS_PER_CYCLE ==> history[g] == Fitnesses(RankingAt(x, start, g))
    ensures r.Evolved? ==>
              && |sigs| == POP_SIZE
              && (forall i :: 0 <= i < POP_SIZE ==> sigs[i] == multiset(RankingAt(x, start, GENERATIONS_PER_CYCLE)[i].rule))
              && Published(Fitnesses(r.population), sigs, chosen) && r.best == PickAll(r.population, chosen)
  {
    hide Fitness, Ranked, NeverWorse, Bred, Filled;
    history, sigs, chosen := [], [], [];
    if |x.samples| < MIN_SAMPLES {
      return TooFewSamples, history, sigs, chosen;
    }
    var pop := FillUp(x, saved, start);
    for gen := 0 to GENERATIONS_PER_CYCLE
      invariant |pop| == |PopulationAt(x, start, gen)|
      invariant forall i :: 0 <= i < |pop| ==> Genes(pop[i]) == PopulationAt(x, start, gen)[i]
      invariant |history| == gen && forall g :: 0 <= g < gen ==> history[g] == Fitnesses(RankingAt(x, start, g))
    {
      var evaluated := RankPopulation(x, pop, PopulationAt(x, start, gen));
      history := history + [Fitnesses(evaluated)];
      pop := NextPopulation(x, gen, evaluated, RankingAt(x, start, gen));
    }
    var evaluated := RankPopulation(x, pop, PopulationAt(x, start, GENERATIONS_PER_CYCLE));
    history := history + [Fitnesses(evaluated)];
    HistoryNeverWorse(x, start, history);
    var best;
    best, sigs, chosen := Publish(evaluated);
    r := Evolved(evaluated, best);
  }

  lemma HistoryNeverWorse(x: Setup, saved: seq<seq<Cond>>, history: seq<seq<real>>)
    requires FairSetup(x) && forall g :: 0 <= g < |history| ==> history[g] == Fitnesses(RankingAt(x, saved, g))
    ensures NeverWorse(history)
  {
    hide RankingAt;
    forall g, h | 0 <= g < h < |history| ensures NoWorse(history[g], history[h]) {
      GenerationsNeverWorse(x, saved, g, h);
    }
  }
}
