/** Continuation paging of the executions query: follow each page's key until it is empty,
    repeated, or the page limit is reached. The broker is an oracle from the number of the
    request and its key to a reply, so it may answer the same key differently over time. */
module ContinuationPaging {
  import opened Options

  /** `next` is the trimmed continuation key, empty when there is none. */
  datatype Reply<T> = Rejected | Page(records: seq<T>, next: string)

  datatype Executions<T> = Failed(request: nat) | Executions(rows: seq<T>, pages: nat, truncated: bool)

  /** The page limit: a finite number of at least one, cut to an integer, or twenty. */
  function PageLimit(raw: Option<real>): (m: nat)
    ensures 1 <= m
    ensures if raw.Some? && raw.value >= 1.0 then m as real <= raw.value < m as real + 1.0 else m == 20
  {
    if raw.Some? && raw.value >= 1.0 then raw.value.Floor else 20
  }

  /** The key of the i-th request on the chain from the empty key. */
  function KeyAt<T>(serve: (nat, string) -> Reply<T>, i: nat): string {
    if i == 0 then ""
    else
      match serve(i - 1, KeyAt(serve, i - 1))
      case Rejected => ""
      case Page(_, next) => next
  }

  predicate AnsweredUpTo<T(!new)>(serve: (nat, string) -> Reply<T>, n: nat) {
    forall i: nat :: i < n ==> serve(i, KeyAt(serve, i)).Page?
  }

  /** All records of the first n pages on the chain, in order. */
  function Rows<T>(serve: (nat, string) -> Reply<T>, n: nat): seq<T> {
    if n == 0 then []
    else
      match serve(n - 1, KeyAt(serve, n - 1))
      case Rejected => Rows(serve, n - 1)
      case Page(records, _) => Rows(serve, n - 1) + records
  }

  /** The chain starts from the empty key, follows each page's own key, and its rows are the pages' records
      one page after the other: those of page i come right after those of the pages before it. */
  lemma {:induction false} RowsHoldPages<T(!new)>(serve: (nat, string) -> Reply<T>, i: nat, n: nat)
    requires i < n && AnsweredUpTo(serve, n)
    ensures KeyAt(serve, 0) == "" && Rows(serve, 0) == []
    ensures var page := serve(i, KeyAt(serve, i));
            && page.Page? && KeyAt(serve, i + 1) == page.next
            && Rows(serve, i) + page.records == Rows(serve, i + 1) <= Rows(serve, n)
  {
    if i + 1 < n {
      RowsHoldPages(serve, i, n - 1);
    }
  }

  /** The chain's n-th page is its last: n answered pages, and the first empty key after them. */
  ghost predicate EndsAfter<T(!new)>(serve: (nat, string) -> Reply<T>, n: nat) {
    && 1 <= n && AnsweredUpTo(serve, n) && KeyAt(serve, n) == ""
    && forall i :: 0 < i < n ==> KeyAt(serve, i) != ""
  }

  ghost predicate Deterministic<T(!new)>(serve: (nat, string) -> Reply<T>) {
    forall i: nat, j: nat, key :: serve(i, key) == serve(j, key)
  }

  /** No key is requested twice before the n-th request. */
  ghost predicate KeysDistinct<T(!new)>(serve: (nat, string) -> Reply<T>, n: nat) {
    forall i: nat, j: nat :: i < j < n ==> KeyAt(serve, i) != KeyAt(serve, j)
  }

  /** Why an answer of n pages says it is cut short. */
  ghost predicate CutShort<T(!new)>(serve: (nat, string) -> Reply<T>, maxPages: nat, n: nat) {
    && KeyAt(serve, n) != ""
    && (n == maxPages || exists i :: 0 < i < n && KeyAt(serve, i) == KeyAt(serve, n))
  }

  ghost function KeysSeen<T>(serve: (nat, string) -> Reply<T>, n: nat): set<string> {
    set i | 0 < i <= n :: KeyAt(serve, i)
  }

  /** Before the n-th request all earlier ones were answered with new, non-empty keys: those seen. */
  ghost predicate Following<T(!new)>(serve: (nat, string) -> Reply<T>, n: nat, seen: set<string>) {
    && AnsweredUpTo(serve, n) && KeysDistinct(serve, n + 1)
    && (forall i :: 0 < i <= n ==> KeyAt(serve, i) != "")
    && seen == KeysSeen(serve, n)
  }

  lemma FollowOn<T(!new)>(serve: (nat, string) -> Reply<T>, n: nat, seen: set<string>, key: string)
    requires Following(serve, n, seen) && serve(n, KeyAt(serve, n)).Page? && key == serve(n, KeyAt(serve, n)).next
    ensures key == KeyAt(serve, n + 1)
    ensures Rows(serve, n + 1) == Rows(serve, n) + serve(n, KeyAt(serve, n)).records
    ensures AnsweredUpTo(serve, n + 1) && KeysDistinct(serve, n + 1)
    ensures key == "" <==> EndsAfter(serve, n + 1)
    ensures key in seen ==> exists i :: 0 < i < n + 1 && KeyAt(serve, i) == KeyAt(serve, n + 1)
    ensures key != "" && key !in seen ==> Following(serve, n + 1, seen + {key})
  {
    assert key == KeyAt(serve, n + 1);
    assert KeysSeen(serve, n + 1) == seen + {key};
    if key != "" && key !in seen {
      hide Rows, EndsAfter;
      forall i: nat | i < n + 1 ensures KeyAt(serve, i) != key {
        assert KeyAt(serve, 0) == "";
      }
    }
  }

  method GetExecutions<T(!new)>(serve: (nat, string) -> Reply<T>, rawMax: Option<real>) returns (r: Executions<T>)
    ensures r.Failed? ==>
              && r.request < PageLimit(rawMax) && AnsweredUpTo(serve, r.request) && KeysDistinct(serve, r.request + 1)
              && serve(r.request, KeyAt(serve, r.request)).Rejected?
    ensures r.Executions? ==>
              && 1 <= r.pages <= PageLimit(rawMax) && AnsweredUpTo(serve, r.pages) && KeysDistinct(serve, r.pages)
              && r.rows == Rows(serve, r.pages)
              && (!r.truncated <==> EndsAfter(serve, r.pages))
              && (r.truncated ==> CutShort(serve, PageLimit(rawMax), r.pages))
    ensures r.Executions? && Deterministic(serve) ==>
              (!r.truncated <==> exists n: nat :: n <= PageLimit(rawMax) && EndsAfter(serve, n))
  {
    assert Following(serve, 0, {}) && Rows(serve, 0) == [];
    var maxPages := PageLimit(rawMax);
    var rows: seq<T> := [];
    var seenKeys: set<string> := {};
    var nextKey := "";
    var pages := 0;
    var truncated := false;
    while pages < maxPages
      invariant pages < maxPages && !truncated
      invariant nextKey == KeyAt(serve, pages) && rows == Rows(serve, pages)
      invariant Following(serve, pages, seenKeys)
    {
      hide KeyAt, Rows, EndsAfter, AnsweredUpTo, KeysDistinct;
      var reply := serve(pages, nextKey);
      if reply.Rejected? {
        return Failed(pages);
      }
      FollowOn(serve, pages, seenKeys, reply.next);
      pages := pages + 1;
      rows := rows + reply.records;
      var key := reply.next;
      if key == "" {
        break;
      }
      if key in seenKeys {
        truncated := true;
        break;
      }
      seenKeys := seenKeys + {key};
      if pages >= maxPages {
        truncated := true;
        break;
      }
      nextKey := key;
    }
    r := Executions(rows, pages, truncated);
    if Deterministic(serve) {
      CompleteIffChainEnds(serve, maxPages, r);
    }
  }

  lemma {:induction false} RepeatedKeyCycles<T(!new)>(serve: (nat, string) -> Reply<T>, i: nat, j: nat, d: nat)
    requires Deterministic(serve) && KeyAt(serve, i) == KeyAt(serve, j)
    ensures KeyAt(serve, i + d) == KeyAt(serve, j + d)
  {
    if d > 0 {
      RepeatedKeyCycles(serve, i, j, d - 1);
      assert serve(i + d - 1, KeyAt(serve, i + d - 1)) == serve(j + d - 1, KeyAt(serve, i + d - 1));
    }
  }

  /** Once a later key repeats an earlier one, a deterministic chain never ends. */
  lemma {:induction false} CycleNeverEnds<T(!new)>(serve: (nat, string) -> Reply<T>, i: nat, j: nat, n: nat)
    requires Deterministic(serve) && 0 < i < j && KeyAt(serve, i) == KeyAt(serve, j)
    requires forall k :: 0 < k <= j ==> KeyAt(serve, k) != ""
    requires 0 < n
    ensures KeyAt(serve, n) != ""
    decreases n
  {
    if n > j {
      RepeatedKeyCycles(serve, i, j, n - j);
      CycleNeverEnds(serve, i, j, n - (j - i));
    }
  }

  /** For a deterministic broker the answer is complete exactly when the chain from the empty key
      ends within the limit, and then it is all of the chain. */
  lemma CompleteIffChainEnds<T(!new)>(serve: (nat, string) -> Reply<T>, maxPages: nat, r: Executions<T>)
    requires Deterministic(serve) && r.Executions? && 1 <= r.pages <= maxPages && KeysDistinct(serve, r.pages)
    requires !r.truncated <==> EndsAfter(serve, r.pages)
    requires r.truncated ==> CutShort(serve, maxPages, r.pages)
    ensures !r.truncated <==> exists n: nat :: n <= maxPages && EndsAfter(serve, n)
    ensures forall n: nat :: !r.truncated && EndsAfter(serve, n) ==> n == r.pages
  {
    forall n: nat | r.truncated && 1 <= n <= maxPages ensures KeyAt(serve, n) != "" {
      assert n < r.pages ==> KeyAt(serve, 0) != KeyAt(serve, n);
      forall k | 0 < k < r.pages ensures KeyAt(serve, k) != "" {
        assert KeyAt(serve, 0) != KeyAt(serve, k);
      }
      if n > r.pages {
        var i :| 0 < i < r.pages && KeyAt(serve, i) == KeyAt(serve, r.pages);
        CycleNeverEnds(serve, i, r.pages, n);
      }
    }
  }
}
