/** Effective-dated cost policies: validation of a policy set, group by group, and the search
    for the one policy in force on a day. */
module CostPolicy {
  import opened Options
  import opened CivilDates
  import opened CostAmounts

  datatype PolicyStatus = TestVerified | ApprovalRequired | Verified | Revoked | UnknownPolicyStatus

  /** `wellShaped` gathers the field, id, version, fixture, eligibility and date-format checks;
      `to` is None for an open-ended policy. */
  datatype Policy = Policy(
    id: string,
    status: PolicyStatus,
    market: string,
    channel: string,
    currency: string,
    from: int,
    to: Option<int>,
    buy: Commission,
    sell: Commission,
    taxes: seq<SellTax>,
    wellShaped: bool)

  datatype Key = Key(market: string, channel: string, currency: string)

  function KeyOf(p: Policy): Key {
    Key(p.market, p.channel, p.currency)
  }

  datatype SetError = PolicyRejected | PolicyOverlap | PolicyGap

  predicate PolicyAccepted(p: Policy) {
    && p.wellShaped
    && !p.status.UnknownPolicyStatus?
    && FIRST_DAY <= p.from <= LAST_DAY
    && (p.to.Some? ==> p.from <= p.to.value <= LAST_DAY)
    && CommissionAccepted(p.buy) && CommissionAccepted(p.sell)
    && (forall i :: 0 <= i < |p.taxes| ==> p.taxes[i].taxType != "" && p.taxes[i].rate >= 0 && !p.taxes[i].mode.UnknownMode?)
    && (forall i, j :: 0 <= i < j < |p.taxes| ==> p.taxes[i].taxType != p.taxes[j].taxType)
  }

  predicate InForce(p: Policy, day: int) {
    p.from <= day && (p.to.Some? ==> day <= p.to.value)
  }

  /** The far end standing in for an open one: 9999-12-31. */
  const FAR_END := DayNumber(Ymd(9999, 12, 31))

  function EndOf(p: Policy): int {
    if p.to.Some? then p.to.value else FAR_END
  }

  predicate RangesOverlap(a: Policy, b: Policy) {
    a.from <= EndOf(b) && b.from <= EndOf(a)
  }

  // ----- groups and their order -----

  /** The indices of one group, in list order. */
  function Group(policies: seq<Policy>, key: Key): (r: seq<nat>)
    ensures forall k :: 0 <= k < |r| ==> r[k] < |policies| && KeyOf(policies[r[k]]) == key
    ensures forall i :: 0 <= i < |policies| && KeyOf(policies[i]) == key ==> i in r
    ensures forall a, b :: 0 <= a < b < |r| ==> r[a] < r[b]
  {
    if policies == [] then []
    else
      var init := Group(policies[..|policies|-1], key);
      if KeyOf(policies[|policies|-1]) == key then init + [|policies|-1] else init
  }

  predicate Precedes(policies: seq<Policy>, a: nat, b: nat)
    requires a < |policies| && b < |policies|
  {
    policies[a].from < policies[b].from || (policies[a].from == policies[b].from && a < b)
  }

  predicate Indices(policies: seq<Policy>, items: seq<nat>) {
    forall k :: 0 <= k < |items| ==> items[k] < |policies|
  }

  predicate InOrder(policies: seq<Policy>, items: seq<nat>)
    requires Indices(policies, items)
  {
    forall a, b :: 0 <= a < b < |items| ==> Precedes(policies, items[a], items[b])
  }

  function Insert(policies: seq<Policy>, item: nat, items: seq<nat>): (r: seq<nat>)
    requires item < |policies| && Indices(policies, items) && InOrder(policies, items) && item !in items
    ensures Indices(policies, r) && InOrder(policies, r) && |r| == |items| + 1
    ensures forall i :: i in r <==> i == item || i in items
  {
    if items == [] then [item]
    else if Precedes(policies, item, items[0]) then [item] + items
    else
      var rest := Insert(policies, item, items[1..]);
      assert forall k :: 0 <= k < |rest| ==> rest[k] in rest;
      [items[0]] + rest
  }

  /** Sorting by effective date, then list index: what the comparator of the set check asks for. */
  function Sorted(policies: seq<Policy>, items: seq<nat>): (r: seq<nat>)
    requires Indices(policies, items) && forall a, b :: 0 <= a < b < |items| ==> items[a] < items[b]
    ensures Indices(policies, r) && InOrder(policies, r) && |r| == |items|
    ensures forall i :: i in r <==> i in items
  {
    if items == [] then []
    else Insert(policies, items[|items|-1], Sorted(policies, items[..|items|-1]))
  }

  function SortedGroup(policies: seq<Policy>, key: Key): (r: seq<nat>)
    ensures Indices(policies, r) && InOrder(policies, r)
    ensures forall i :: i in r <==> 0 <= i < |policies| && KeyOf(policies[i]) == key
  {
    Sorted(policies, Group(policies, key))
  }

  // ----- the set check -----

  predicate PairFree(policies: seq<Policy>, items: seq<nat>)
    requires Indices(policies, items)
  {
    forall a, b :: 0 <= a < b < |items| ==> !RangesOverlap(policies[items[a]], policies[items[b]])
  }

  predicate Adjacent(p: Policy, q: Policy) {
    p.to.Some? && q.from > p.to.value && q.from <= p.to.value + 1
  }

  predicate AllAdjacent(policies: seq<Policy>, items: seq<nat>)
    requires Indices(policies, items)
  {
    forall a :: 0 <= a < |items| - 1 ==> Adjacent(policies[items[a]], policies[items[a+1]])
  }

  predicate GroupAccepted(policies: seq<Policy>, items: seq<nat>)
    requires Indices(policies, items)
  {
    PairFree(policies, items) && AllAdjacent(policies, items)
  }

  ghost predicate SetAccepted(policies: seq<Policy>) {
    && (forall i :: 0 <= i < |policies| ==> PolicyAccepted(policies[i]))
    && (forall key :: GroupAccepted(policies, SortedGroup(policies, key)))
  }

  method CheckPairs(policies: seq<Policy>, sorted: seq<nat>) returns (errors: seq<SetError>)
    requires Indices(policies, sorted)
    ensures errors == [] <==> PairFree(policies, sorted)
  {
    errors := [];
    for i := 0 to |sorted|
      invariant errors == [] <==> forall a, b :: 0 <= a < i && a < b < |sorted| ==> !RangesOverlap(policies[sorted[a]], policies[sorted[b]])
    {
      ghost var before := errors;
      var j := i + 1;
      while j < |sorted|
        invariant i < j <= |sorted|
        invariant errors == before
        invariant forall b :: i < b < j ==> !RangesOverlap(policies[sorted[i]], policies[sorted[b]])
      {
        if RangesOverlap(policies[sorted[i]], policies[sorted[j]]) {
          errors := errors + [PolicyOverlap];
          break;
        }
        j := j + 1;
      }
    }
  }

  method CheckAdjacency(policies: seq<Policy>, sorted: seq<nat>) returns (errors: seq<SetError>)
    requires Indices(policies, sorted)
    ensures errors == [] <==> AllAdjacent(policies, sorted)
  {
    errors := [];
    var i := 0;
    while i < |sorted| - 1
      invariant 0 <= i && (i <= |sorted| - 1 || i == 0)
      invariant errors == [] <==> forall a :: 0 <= a < i ==> Adjacent(policies[sorted[a]], policies[sorted[a+1]])
    {
      var current, next := policies[sorted[i]], policies[sorted[i+1]];
      if current.to.None? {
        errors := errors + [PolicyOverlap];
      } else if next.from <= current.to.value {
        errors := errors + [PolicyOverlap];
      } else if next.from > current.to.value + 1 {
        errors := errors + [PolicyGap];
      }
      i := i + 1;
    }
  }

  lemma GroupSnoc(policies: seq<Policy>, i: nat, key: Key)
    requires i < |policies|
    ensures Group(policies[..i+1], key) == Group(policies[..i], key) + if KeyOf(policies[i]) == key then [i] else []
  {
    assert policies[..i+1][..i] == policies[..i];
  }

  method GroupByKey(policies: seq<Policy>) returns (groups: map<Key, seq<nat>>)
    ensures forall key :: Group(policies, key) == if key in groups then groups[key] else []
  {
    groups := map[];
    for i := 0 to |policies|
      invariant forall key :: Group(policies[..i], key) == if key in groups then groups[key] else []
    {
      hide Group;
      var key := KeyOf(policies[i]);
      ghost var before := groups;
      groups := groups[key := (if key in groups then groups[key] else []) + [i]];
      forall other: Key ensures Group(policies[..i+1], other) == if other in groups then groups[other] else [] {
        GroupSnoc(policies, i, other);
      }
    }
    assert policies[..|policies|] == policies;
  }

  method CheckGroup(policies: seq<Policy>, key: Key, items: seq<nat>) returns (errors: seq<SetError>)
    requires items == Group(policies, key)
    ensures errors == [] <==> GroupAccepted(policies, SortedGroup(policies, key))
  {
    var sorted := SortedGroup(policies, key);
    var pairs := CheckPairs(policies, sorted);
    var adjacency := CheckAdjacency(policies, sorted);
    errors := pairs + adjacency;
  }

  lemma EmptyGroupAccepted(policies: seq<Policy>, key: Key)
    requires Group(policies, key) == []
    ensures GroupAccepted(policies, SortedGroup(policies, key))
  {
  }

  method CheckPolicies(policies: seq<Policy>) returns (errors: seq<SetError>)
    ensures errors == [] <==> forall i :: 0 <= i < |policies| ==> PolicyAccepted(policies[i])
  {
    errors := [];
    for i := 0 to |policies|
      invariant errors == [] <==> forall k :: 0 <= k < i ==> PolicyAccepted(policies[k])
    {
      if !PolicyAccepted(policies[i]) {
        errors := errors + [PolicyRejected];
      }
    }
  }

  /** The set check accepts exactly the sets whose every group is pairwise free and adjacent. */
  method ValidateCostPolicySet(policies: seq<Policy>) returns (errors: seq<SetError>)
    ensures errors == [] <==> SetAccepted(policies)
  {
    hide GroupAccepted, PolicyAccepted, SortedGroup, Group;
    errors := CheckPolicies(policies);
    if errors != [] {
      return;
    }
    var groups := GroupByKey(policies);
    var left := groups.Keys;
    while left != {}
      invariant left <= groups.Keys
      invariant errors == [] <==> forall key :: key in groups && key !in left ==> GroupAccepted(policies, SortedGroup(policies, key))
      decreases |left|
    {
      var key :| key in left;
      var found := CheckGroup(policies, key, groups[key]);
      errors := errors + found;
      left := left - {key};
    }
    forall key: Key | key !in groups ensures GroupAccepted(policies, SortedGroup(policies, key)) {
      EmptyGroupAccepted(policies, key);
    }
  }

  // ----- what acceptance means, day by day -----

  predicate Covers(policies: seq<Policy>, key: Key, i: nat, day: int) {
    i < |policies| && KeyOf(policies[i]) == key && InForce(policies[i], day)
  }

  ghost predicate Covered(policies: seq<Policy>, key: Key, day: int) {
    exists i: nat :: Covers(policies, key, i, day)
  }

  /** No day has two policies, and no day between covered days has none. */
  ghost predicate TilesEveryGroup(policies: seq<Policy>) {
    && (forall key, day, i: nat, j: nat :: Covers(policies, key, i, day) && Covers(policies, key, j, day) ==> i == j)
    && (forall key, a, b, day :: Covered(policies, key, a) && Covered(policies, key, b) && a <= day <= b ==> Covered(policies, key, day))
  }

  /** In an accepted group each policy ends the day before its successor starts. */
  lemma {:induction false} ChainAscends(policies: seq<Policy>, items: seq<nat>, a: nat, b: nat)
    requires Indices(policies, items) && AllAdjacent(policies, items) && a < b < |items|
    requires forall k :: 0 <= k < |policies| ==> PolicyAccepted(policies[k])
    ensures policies[items[a]].to.Some? && policies[items[a]].to.value < policies[items[b]].from
    decreases b
  {
    assert Adjacent(policies[items[b-1]], policies[items[b]]);
    if a < b - 1 {
      ChainAscends(policies, items, a, b - 1);
    }
  }

  /** The day falls in the chain: between the first start and the last end. */
  lemma {:induction false} ChainReaches(policies: seq<Policy>, items: seq<nat>, n: nat, day: int) returns (k: nat)
    requires Indices(policies, items) && AllAdjacent(policies, items) && n < |items|
    requires forall k :: 0 <= k < |policies| ==> PolicyAccepted(policies[k])
    requires policies[items[0]].from <= day
    requires policies[items[n]].to.Some? ==> day <= policies[items[n]].to.value
    ensures k <= n && InForce(policies[items[k]], day)
    decreases n
  {
    if policies[items[n]].from <= day {
      k := n;
    } else {
      assert Adjacent(policies[items[n-1]], policies[items[n]]);
      k := ChainReaches(policies, items, n - 1, day);
    }
  }

  lemma AcceptedTiles(policies: seq<Policy>)
    requires SetAccepted(policies)
    ensures TilesEveryGroup(policies)
  {
    hide PolicyAccepted;
    forall key, day, i: nat, j: nat | Covers(policies, key, i, day) && Covers(policies, key, j, day)
      ensures i == j
    {
      var s := SortedGroup(policies, key);
      assert GroupAccepted(policies, s);
      var a :| 0 <= a < |s| && s[a] == i;
      var b :| 0 <= b < |s| && s[b] == j;
      if a < b {
        ChainAscends(policies, s, a, b);
      } else if b < a {
        ChainAscends(policies, s, b, a);
      }
    }
    forall key, a, b, day | Covered(policies, key, a) && Covered(policies, key, b) && a <= day <= b
      ensures Covered(policies, key, day)
    {
      AcceptedHasNoGap(policies, key, a, b, day);
    }
  }

  lemma AcceptedHasNoGap(policies: seq<Policy>, key: Key, a: int, b: int, day: int)
    requires SetAccepted(policies) && Covered(policies, key, a) && Covered(policies, key, b) && a <= day <= b
    ensures Covered(policies, key, day)
  {
    hide PolicyAccepted;
    var s := SortedGroup(policies, key);
    assert GroupAccepted(policies, s);
    var i: nat :| Covers(policies, key, i, a);
    var j: nat :| Covers(policies, key, j, b);
    var k :| 0 <= k < |s| && s[k] == i;
    var n :| 0 <= n < |s| && s[n] == j;
    assert k > 0 ==> Precedes(policies, s[0], s[k]);
    var hit := ChainReaches(policies, s, n, day);
    assert s[hit] in s;
    assert Covers(policies, key, s[hit], day);
  }

  lemma NeighboursApart(policies: seq<Policy>, key: Key, a: nat)
    requires TilesEveryGroup(policies) && forall i :: 0 <= i < |policies| ==> PolicyAccepted(policies[i])
    requires a + 1 < |SortedGroup(policies, key)|
    ensures var s := SortedGroup(policies, key);
            var p, q := policies[s[a]], policies[s[a+1]];
            && p.from <= q.from && p.to.Some? && p.from <= p.to.value < q.from
            && Covers(policies, key, s[a], p.from) && Covers(policies, key, s[a], p.to.value) && Covers(policies, key, s[a+1], q.from)
  {
    hide SortedGroup, CommissionAccepted;
    var s := SortedGroup(policies, key);
    assert s[a] in s && s[a+1] in s;
    assert Precedes(policies, s[a], s[a+1]);
    var p, q := policies[s[a]], policies[s[a+1]];
    assert Covers(policies, key, s[a], p.from) && Covers(policies, key, s[a+1], q.from);
    assert !Covers(policies, key, s[a], q.from);
  }

  /** The day lies strictly between the end of the a-th policy and the start of the next. */
  predicate Between(policies: seq<Policy>, key: Key, a: nat, day: int)
    requires a + 1 < |SortedGroup(policies, key)|
  {
    var s := SortedGroup(policies, key);
    var p, q := policies[s[a]], policies[s[a+1]];
    p.to.Some? && p.from <= p.to.value < day < q.from
  }

  lemma PlaceMisses(policies: seq<Policy>, key: Key, a: nat, k: nat, day: int)
    requires TilesEveryGroup(policies) && a + 1 < |SortedGroup(policies, key)| && k < |SortedGroup(policies, key)|
    requires Covers(policies, key, SortedGroup(policies, key)[a], policies[SortedGroup(policies, key)[a]].from)
    requires Between(policies, key, a, day)
    ensures !Covers(policies, key, SortedGroup(policies, key)[k], day)
  {
    hide SortedGroup;
    var s := SortedGroup(policies, key);
    if k < a {
      assert Precedes(policies, s[k], s[a]);
      var earlier, here := s[k], policies[s[a]].from;
      assert Covers(policies, key, earlier, day) ==> Covers(policies, key, earlier, here);
    } else if a + 1 < k {
      assert Precedes(policies, s[a+1], s[k]);
    }
  }

  lemma NobodyBetween(policies: seq<Policy>, key: Key, a: nat, day: int)
    requires TilesEveryGroup(policies) && a + 1 < |SortedGroup(policies, key)|
    requires Covers(policies, key, SortedGroup(policies, key)[a], policies[SortedGroup(policies, key)[a]].from)
    requires Between(policies, key, a, day)
    ensures !Covered(policies, key, day)
  {
    hide SortedGroup, Between;
    var s := SortedGroup(policies, key);
    forall c: nat ensures !Covers(policies, key, c, day) {
      if c < |policies| && KeyOf(policies[c]) == key {
        assert c in s;
        var k :| 0 <= k < |s| && s[k] == c;
        PlaceMisses(policies, key, a, k, day);
      }
    }
  }

  lemma NeighboursAdjacent(policies: seq<Policy>, key: Key, a: nat)
    requires TilesEveryGroup(policies) && forall i :: 0 <= i < |policies| ==> PolicyAccepted(policies[i])
    requires a + 1 < |SortedGroup(policies, key)|
    ensures var s := SortedGroup(policies, key); Adjacent(policies[s[a]], policies[s[a+1]])
  {
    hide SortedGroup, PolicyAccepted, Covers;
    var s := SortedGroup(policies, key);
    NeighboursApart(policies, key, a);
    var p, q := policies[s[a]], policies[s[a+1]];
    var day := p.to.value + 1;
    if day < q.from {
      assert Covered(policies, key, p.to.value) && Covered(policies, key, q.from);
      NobodyBetween(policies, key, a, day);
    }
  }

  lemma PairsFollowFromAdjacency(policies: seq<Policy>, items: seq<nat>)
    requires Indices(policies, items) && AllAdjacent(policies, items)
    requires forall k :: 0 <= k < |policies| ==> PolicyAccepted(policies[k])
    ensures PairFree(policies, items)
  {
    hide PolicyAccepted;
    forall a, b | 0 <= a < b < |items| ensures !RangesOverlap(policies[items[a]], policies[items[b]]) {
      ChainAscends(policies, items, a, b);
    }
  }

  /** The set check is exact: it accepts precisely the sets of accepted policies in which every
      group tiles one unbroken range of days. */
  lemma AcceptedIffTiles(policies: seq<Policy>)
    ensures SetAccepted(policies) <==>
              TilesEveryGroup(policies) && forall i :: 0 <= i < |policies| ==> PolicyAccepted(policies[i])
  {
    hide PolicyAccepted;
    if SetAccepted(policies) {
      AcceptedTiles(policies);
    }
    if TilesEveryGroup(policies) && forall i :: 0 <= i < |policies| ==> PolicyAccepted(policies[i]) {
      forall key ensures GroupAccepted(policies, SortedGroup(policies, key)) {
        var s := SortedGroup(policies, key);
        forall a | 0 <= a < |s| - 1 ensures Adjacent(policies[s[a]], policies[s[a+1]]) {
          NeighboursAdjacent(policies, key, a);
        }
        PairsFollowFromAdjacency(policies, s);
      }
    }
  }

  /** Only the last policy of an accepted group may be open-ended. */
  lemma OnlyLastIsOpen(policies: seq<Policy>, key: Key, a: nat)
    requires SetAccepted(policies) && a < |SortedGroup(policies, key)| - 1
    ensures policies[SortedGroup(policies, key)[a]].to.Some?
  {
    hide PolicyAccepted, SortedGroup;
    var s := SortedGroup(policies, key);
    assert GroupAccepted(policies, s);
    assert Adjacent(policies[s[a]], policies[s[a+1]]);
  }

  // ----- selection -----

  datatype Selection = Selected(index: nat) | Overlapping | MarketMismatch | NotFound

  /** What each answer of the selection says about the policies covering the day. */
  ghost predicate SelectionMeans(policies: seq<Policy>, key: Key, day: int, r: Selection) {
    match r
    case Selected(i) => Covers(policies, key, i, day) && forall j: nat :: Covers(policies, key, j, day) ==> j == i
    case Overlapping => exists i: nat, j: nat :: i != j && Covers(policies, key, i, day) && Covers(policies, key, j, day)
    case MarketMismatch => !Covered(policies, key, day) && exists i :: 0 <= i < |policies| && OtherMarket(policies[i], key)
    case NotFound => !Covered(policies, key, day) && forall i :: 0 <= i < |policies| ==> !OtherMarket(policies[i], key)
  }

  /** The loop that gathers every policy in force for the market, channel and currency. */
  method SelectEffectiveCostPolicy(policies: seq<Policy>, key: Key, day: int) returns (r: Selection)
    ensures SelectionMeans(policies, key, day, r)
  {
    hide OtherMarket, InForce;
    var matches: seq<nat> := [];
    for i := 0 to |policies|
      invariant forall k: nat :: k < i && Covers(policies, key, k, day) ==> k in matches
      invariant forall a :: 0 <= a < |matches| ==> matches[a] < i && Covers(policies, key, matches[a], day)
      invariant forall a, b :: 0 <= a < b < |matches| ==> matches[a] < matches[b]
    {
      if KeyOf(policies[i]) == key && InForce(policies[i], day) {
        matches := matches + [i];
      }
    }
    assert forall k: nat :: Covers(policies, key, k, day) ==> k in matches;
    if |matches| == 1 {
      return Selected(matches[0]);
    }
    if |matches| > 1 {
      assert Covers(policies, key, matches[0], day) && Covers(policies, key, matches[1], day);
      return Overlapping;
    }
    r := if exists i :: 0 <= i < |policies| && OtherMarket(policies[i], key) then MarketMismatch else NotFound;
  }

  predicate OtherMarket(p: Policy, key: Key) {
    p.channel == key.channel && p.currency == key.currency && p.market != key.market
  }

  function FirstDayOf(policies: seq<Policy>, key: Key): int
    requires SortedGroup(policies, key) != []
  {
    policies[SortedGroup(policies, key)[0]].from
  }

  function LastPolicyOf(policies: seq<Policy>, key: Key): Policy
    requires SortedGroup(policies, key) != []
  {
    var s := SortedGroup(policies, key);
    policies[s[|s|-1]]
  }

  predicate InSpan(policies: seq<Policy>, key: Key, day: int)
    requires SortedGroup(policies, key) != []
  {
    FirstDayOf(policies, key) <= day && (LastPolicyOf(policies, key).to.Some? ==> day <= LastPolicyOf(policies, key).to.value)
  }

  /** On an accepted set selection is a total function on one range of days: exactly one policy
      from the group's first day to its last end, none outside, and never an overlap. */
  lemma SelectionIsTotal(policies: seq<Policy>, key: Key, day: int)
    requires SetAccepted(policies) && SortedGroup(policies, key) != []
    ensures Covered(policies, key, day) <==> InSpan(policies, key, day)
    ensures forall i: nat, j: nat :: Covers(policies, key, i, day) && Covers(policies, key, j, day) ==> i == j
  {
    AcceptedTiles(policies);
    hide SetAccepted, SortedGroup, Covers, InSpan;
    if i: nat :| Covers(policies, key, i, day) {
      CoveredInSpan(policies, key, i, day);
    }
    if InSpan(policies, key, day) {
      SpanIsCovered(policies, key, day);
    }
  }

  lemma PlaceInSpan(policies: seq<Policy>, s: seq<nat>, k: nat, day: int)
    requires Indices(policies, s) && InOrder(policies, s) && AllAdjacent(policies, s) && k < |s|
    requires forall i :: 0 <= i < |policies| ==> PolicyAccepted(policies[i])
    requires InForce(policies[s[k]], day)
    ensures policies[s[0]].from <= day
    ensures policies[s[|s|-1]].to.Some? ==> day <= policies[s[|s|-1]].to.value
  {
    hide PolicyAccepted;
    assert k > 0 ==> Precedes(policies, s[0], s[k]);
    if k < |s| - 1 {
      ChainAscends(policies, s, k, |s| - 1);
      EndAfterStart(policies, s[|s|-1]);
    }
  }

  lemma CoveredInSpan(policies: seq<Policy>, key: Key, i: nat, day: int)
    requires SetAccepted(policies) && SortedGroup(policies, key) != [] && Covers(policies, key, i, day)
    ensures InSpan(policies, key, day)
  {
    hide PolicyAccepted, InForce, SortedGroup, AllAdjacent, PairFree;
    var s := SortedGroup(policies, key);
    assert GroupAccepted(policies, s);
    assert i in s;
    var k :| 0 <= k < |s| && s[k] == i;
    PlaceInSpan(policies, s, k, day);
  }

  lemma SpanIsCovered(policies: seq<Policy>, key: Key, day: int)
    requires SetAccepted(policies) && SortedGroup(policies, key) != [] && InSpan(policies, key, day)
    ensures Covered(policies, key, day)
  {
    hide PolicyAccepted;
    var s := SortedGroup(policies, key);
    assert GroupAccepted(policies, s);
    var hit := ChainReaches(policies, s, |s| - 1, day);
    assert s[hit] in s;
    assert Covers(policies, key, s[hit], day);
  }

  lemma EndAfterStart(policies: seq<Policy>, i: nat)
    requires i < |policies| && PolicyAccepted(policies[i])
    ensures policies[i].to.Some? ==> policies[i].from <= policies[i].to.value
  {
  }

  // ----- the cost of one round trip -----

  /** `wellShaped` gathers the field, mode, market, channel, currency and date-format checks. */
  datatype Trade = Trade(quantity: int, entryPrice: int, exitPrice: int, entryDay: int, exitDay: int, key: Key, wellShaped: bool)

  datatype CostBlock = TradeRejected | SetRejected | AmountRejected(error: AmountError) | SelectionFailed(selection: Selection) | StatusRejected

  datatype CostResult =
    | CostBlocked(block: CostBlock)
    | Cost(entryPolicy: nat, exitPolicy: nat, entryAmount: int, exitAmount: int, entryCommission: int,
           exitCommission: int, taxes: seq<int>, taxTotal: int, totalCost: int, grossProfit: int, netProfit: int)

  predicate TradeAccepted(t: Trade) {
    && t.wellShaped
    && 0 < t.quantity <= MAX_SAFE_INTEGER && 0 < t.entryPrice <= MAX_SAFE_INTEGER && 0 < t.exitPrice <= MAX_SAFE_INTEGER
  }

  /** What a calculated cost is: amounts, commissions and taxes of the two policies in force on
      the entry and exit days, and totals that are their exact sums, all of them safe integers. */
  ghost predicate CostOf(policies: seq<Policy>, t: Trade, r: CostResult)
    requires r.Cost?
  {
    && Covers(policies, t.key, r.entryPolicy, t.entryDay)
    && Covers(policies, t.key, r.exitPolicy, t.exitDay)
    && policies[r.entryPolicy].status.TestVerified? && policies[r.exitPolicy].status.TestVerified?
    && r.entryAmount == t.quantity * t.entryPrice && IsSafe(r.entryAmount)
    && r.exitAmount == t.quantity * t.exitPrice && IsSafe(r.exitAmount)
    && CommissionOf(r.entryAmount, policies[r.entryPolicy].buy, r.entryCommission)
    && CommissionOf(r.exitAmount, policies[r.exitPolicy].sell, r.exitCommission)
    && TaxesOf(r.exitAmount, policies[r.exitPolicy].taxes, r.taxes, r.taxTotal)
    && r.totalCost == r.entryCommission + r.exitCommission + Sum(r.taxes) && IsSafe(r.totalCost)
    && r.grossProfit == t.quantity * (t.exitPrice - t.entryPrice)
    && r.netProfit == r.grossProfit - r.totalCost
  }

  /** A round trip is priced exactly when it and the set are accepted and a cost of it exists. */
  method CalculateSyntheticTradeCost(fl: int -> int, policies: seq<Policy>, t: Trade) returns (r: CostResult)
    requires DoubleRounding(fl)
    ensures r == CostBlocked(TradeRejected) <==> !TradeAccepted(t)
    ensures r == CostBlocked(SetRejected) <==> TradeAccepted(t) && !SetAccepted(policies)
    ensures r.Cost? ==> CostOf(policies, t, r)
    ensures r.CostBlocked? && TradeAccepted(t) && SetAccepted(policies) ==> forall c: CostResult :: c.Cost? ==> !CostOf(policies, t, c)
    ensures r.CostBlocked? && r.block.SelectionFailed? ==>
              r.block.selection != Overlapping && (!Covered(policies, t.key, t.entryDay) || !Covered(policies, t.key, t.exitDay))
  {
    hide SetAccepted, CalculateCommission, SellTaxes, SafeMultiply, CommissionOf, TaxesOf, Sum;
    if !TradeAccepted(t) {
      return CostBlocked(TradeRejected);
    }
    var errors := ValidateCostPolicySet(policies);
    if errors != [] {
      return CostBlocked(SetRejected);
    }
    SafeMultiplyExact(t.quantity, t.entryPrice);
    SafeMultiplyExact(t.quantity, t.exitPrice);
    var entryAmount := SafeMultiply(t.quantity, t.entryPrice);
    if entryAmount.Failed? {
      return CostBlocked(AmountRejected(entryAmount.error));
    }
    var exitAmount := SafeMultiply(t.quantity, t.exitPrice);
    if exitAmount.Failed? {
      return CostBlocked(AmountRejected(exitAmount.error));
    }
    AcceptedTiles(policies);
    var entry := SelectEffectiveCostPolicy(policies, t.key, t.entryDay);
    if !entry.Selected? {
      return CostBlocked(SelectionFailed(entry));
    }
    var exit := SelectEffectiveCostPolicy(policies, t.key, t.exitDay);
    if !exit.Selected? {
      return CostBlocked(SelectionFailed(exit));
    }
    if !policies[entry.index].status.TestVerified? || !policies[exit.index].status.TestVerified? {
      return CostBlocked(StatusRejected);
    }
    forall c: CostResult | c.Cost? ensures CostOf(policies, t, c) <==> Priced(policies, t, entry.index, exit.index, c) {
      PricedIsCost(policies, t, entry.index, exit.index, c);
    }
    hide CostOf, Covers;
    var entryCommission := CalculateCommission(entryAmount.value, policies[entry.index].buy);
    if entryCommission.Failed? {
      return CostBlocked(AmountRejected(entryCommission.error));
    }
    var exitCommission := CalculateCommission(exitAmount.value, policies[exit.index].sell);
    if exitCommission.Failed? {
      return CostBlocked(AmountRejected(exitCommission.error));
    }
    var taxes := CalculateSellTaxes(fl, exitAmount.value, policies[exit.index].taxes);
    if taxes.TaxFailed? {
      return CostBlocked(AmountRejected(taxes.error));
    }
    TotalIsSum(exitAmount.value, policies[exit.index].taxes);
    CommissionIsMoney(entryAmount.value, policies[entry.index].buy);
    CommissionIsMoney(exitAmount.value, policies[exit.index].sell);
    ThreeTermGuard(fl, entryCommission.value, exitCommission.value, taxes.total);
    var totalCost := fl(fl(entryCommission.value + exitCommission.value) + taxes.total);
    if !IsSafe(totalCost) {
      return CostBlocked(AmountRejected(ArithmeticOverflow));
    }
    var grossProfit := exitAmount.value - entryAmount.value;
    r := Cost(entry.index, exit.index, entryAmount.value, exitAmount.value, entryCommission.value, exitCommission.value,
              taxes.amounts, taxes.total, totalCost, grossProfit, grossProfit - totalCost);
  }

  /** A cost in terms of what the rate, tax and product functions return. */
  ghost predicate Priced(policies: seq<Policy>, t: Trade, entry: nat, exit: nat, r: CostResult)
    requires r.Cost? && entry < |policies| && exit < |policies|
  {
    && r.entryPolicy == entry && r.exitPolicy == exit
    && SafeMultiply(t.quantity, t.entryPrice) == Amount(r.entryAmount)
    && SafeMultiply(t.quantity, t.exitPrice) == Amount(r.exitAmount)
    && CalculateCommission(r.entryAmount, policies[entry].buy) == Amount(r.entryCommission)
    && CalculateCommission(r.exitAmount, policies[exit].sell) == Amount(r.exitCommission)
    && SellTaxes(r.exitAmount, policies[exit].taxes) == Taxes(r.taxes, r.taxTotal)
    && r.totalCost == r.entryCommission + r.exitCommission + r.taxTotal && IsSafe(r.totalCost)
    && r.grossProfit == r.exitAmount - r.entryAmount
    && r.netProfit == r.grossProfit - r.totalCost
  }

  lemma PricedIsCost(policies: seq<Policy>, t: Trade, entry: nat, exit: nat, r: CostResult)
    requires TradeAccepted(t) && SetAccepted(policies) && r.Cost?
    requires forall i: nat :: Covers(policies, t.key, i, t.entryDay) <==> i == entry
    requires forall i: nat :: Covers(policies, t.key, i, t.exitDay) <==> i == exit
    requires entry < |policies| && exit < |policies|
    requires policies[entry].status.TestVerified? && policies[exit].status.TestVerified?
    ensures CostOf(policies, t, r) <==> Priced(policies, t, entry, exit, r)
  {
    hide SetAccepted, CommissionOf, TaxesOf, CalculateCommission, SellTaxes, SafeMultiply, Covers, Sum;
    SafeMultiplyExact(t.quantity, t.entryPrice);
    SafeMultiplyExact(t.quantity, t.exitPrice);
    Distribute(t.quantity, t.exitPrice - t.entryPrice, t.entryPrice);
    MoneyProduct(t.quantity, t.entryPrice);
    MoneyProduct(t.quantity, t.exitPrice);
    if IsSafe(r.entryAmount) && r.entryAmount == t.quantity * t.entryPrice {
      CommissionPrices(policies, entry, policies[entry].buy, r.entryAmount, r.entryCommission);
    }
    if IsSafe(r.exitAmount) && r.exitAmount == t.quantity * t.exitPrice {
      CommissionPrices(policies, exit, policies[exit].sell, r.exitAmount, r.exitCommission);
      TaxesPrice(policies, exit, r);
    }
  }

  lemma MoneyProduct(a: int, b: int)
    requires a > 0 && b > 0
    ensures a * b > 0
  {
  }

  lemma CommissionPrices(policies: seq<Policy>, i: nat, c: Commission, amount: int, v: int)
    requires SetAccepted(policies) && i < |policies| && IsMoney(amount) && (c == policies[i].buy || c == policies[i].sell)
    ensures CommissionOf(amount, c, v) <==> CalculateCommission(amount, c) == Amount(v)
  {
    assert PolicyAccepted(policies[i]);
    hide CommissionOf, CalculateCommission;
    CommissionMeans(amount, c);
  }

  lemma TaxesPrice(policies: seq<Policy>, i: nat, r: CostResult)
    requires SetAccepted(policies) && i < |policies| && r.Cost? && IsMoney(r.exitAmount)
    ensures TaxesOf(r.exitAmount, policies[i].taxes, r.taxes, r.taxTotal) <==> SellTaxes(r.exitAmount, policies[i].taxes) == Taxes(r.taxes, r.taxTotal)
    ensures TaxesOf(r.exitAmount, policies[i].taxes, r.taxes, r.taxTotal) ==> r.taxTotal == Sum(r.taxes)
  {
    assert PolicyAccepted(policies[i]);
    hide SetAccepted, SellTaxes;
    TaxesMean(r.exitAmount, policies[i].taxes, r.taxes, r.taxTotal);
  }

  lemma CommissionIsMoney(amount: int, c: Commission)
    ensures var r := CalculateCommission(amount, c); r.Amount? ==> IsMoney(r.value)
  {
    NonNegativeRate(amount, c.rate, c.mode);
  }

  /** Adding three non-negative amounts in double precision and checking the rounded result
      accepts exactly the sums that are safe, and those are exact. */
  lemma ThreeTermGuard(fl: int -> int, a: int, b: int, c: int)
    requires DoubleRounding(fl) && IsMoney(a) && IsMoney(b) && IsMoney(c)
    ensures IsSafe(fl(fl(a + b) + c)) <==> IsSafe(a + b + c)
    ensures IsSafe(a + b + c) ==> fl(fl(a + b) + c) == a + b + c
  {
    var most := MAX_SAFE_INTEGER + 1;
    assert fl(most) == most;
    if a + b > MAX_SAFE_INTEGER {
      assert fl(most) <= fl(a + b);
      assert fl(most) <= fl(fl(a + b) + c);
    } else {
      SumGuardIsSound(fl, a + b, c);
    }
  }
}
