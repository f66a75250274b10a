/** The `ErrorMetrics` collector of src/utils/logging.py: error counts per
    type (a dict, so in first-recorded order), a window of the last 100
    operation outcomes per operation type, and the last 100 errors. The
    clock is the parameter `now`. The collector's state is described by
    the value functions below, and the class's methods are proved to
    follow them. */
module Metrics {
  import opened Wrappers
  import opened Builtins
  import opened Sorting

  /** The length of every window the collector keeps. */
  const WindowSize: nat := 100

  // ----------------------------------------------------------------- windows

  /** Appending to a window that drops its oldest entry once it would hold
      more than `WindowSize`: `deque(maxlen=100).append`, and the
      `append` followed by `pop(0)` of `record_operation`. */
  function Push<T>(window: seq<T>, x: T): seq<T> {
    var w := window + [x];
    if |w| > WindowSize then w[1..] else w
  }

  /** The last `WindowSize` items of `s`, oldest first. */
  function Recent<T>(s: seq<T>): (r: seq<T>)
    ensures |r| <= WindowSize
  {
    if |s| <= WindowSize then s else s[|s| - WindowSize..]
  }

  /** The window after each of `xs` is pushed in turn. */
  function PushAll<T>(window: seq<T>, xs: seq<T>): seq<T>
    decreases |xs|
  {
    if xs == [] then window else PushAll(Push(window, xs[0]), xs[1..])
  }

  /** Pushing onto the recent items of `s` gives the recent items of `s`
      extended. */
  lemma PushRecent<T>(s: seq<T>, x: T)
    ensures Push(Recent(s), x) == Recent(s + [x])
  {
    var t := s + [x];
    if |s| > WindowSize {
      assert (s[|s| - WindowSize..] + [x])[1..] == t[|t| - WindowSize..];
    } else if |t| > WindowSize {
      assert (s + [x])[1..] == t[|t| - WindowSize..];
    }
  }

  /** A window fed with `xs` holds the last `WindowSize` items of
      everything pushed into it. */
  lemma {:induction false} PushAllRecent<T>(s: seq<T>, xs: seq<T>)
    ensures PushAll(Recent(s), xs) == Recent(s + xs)
    decreases |xs|
  {
    if xs == [] {
      assert s + xs == s;
    } else {
      PushRecent(s, xs[0]);
      PushAllRecent(s + [xs[0]], xs[1..]);
      assert s + [xs[0]] + xs[1..] == s + xs;
    }
  }

  /** Starting empty, a window always holds the last `WindowSize` items
      pushed, oldest first, so it never holds more than `WindowSize`. */
  lemma WindowHoldsRecent<T>(xs: seq<T>)
    ensures PushAll([], xs) == Recent(xs)
    ensures |PushAll([], xs)| <= WindowSize
  {
    PushAllRecent([], xs);
    assert [] + xs == xs;
  }

  // ------------------------------------------------------------ error counts

  /** `error_counts.items()`: (type, count) pairs in first-recorded order. */
  type Counts = seq<(string, nat)>

  predicate UniqueKeys(items: Counts) {
    forall i, j :: 0 <= i < j < |items| ==> items[i].0 != items[j].0
  }

  function Keys(items: Counts): (ks: seq<string>)
    ensures |ks| == |items| && forall i :: 0 <= i < |items| ==> ks[i] == items[i].0
  {
    if items == [] then [] else [items[0].0] + Keys(items[1..])
  }

  /** `error_counts[t]` of a `defaultdict(int)`: 0 for a type never seen. */
  function CountOf(items: Counts, t: string): nat {
    if items == [] then 0
    else if items[0].0 == t then items[0].1
    else CountOf(items[1..], t)
  }

  /** `error_counts[t] += 1`. */
  function Increment(items: Counts, t: string): Counts {
    if items == [] then [(t, 1)]
    else if items[0].0 == t then [(t, items[0].1 + 1)] + items[1..]
    else [items[0]] + Increment(items[1..], t)
  }

  /** Recording `t` adds one to its count and changes no other count; a
      new type is added at the end, and the types stay distinct. */
  lemma {:induction false} IncrementSpec(items: Counts, t: string)
    requires UniqueKeys(items)
    ensures var r := Increment(items, t);
      && UniqueKeys(r)
      && CountOf(r, t) == CountOf(items, t) + 1
      && (forall u :: u != t ==> CountOf(r, u) == CountOf(items, u))
      && Keys(r) == Keys(items) + (if t in Keys(items) then [] else [t])
  {
    if items != [] {
      var r := Increment(items, t);
      if items[0].0 == t {
        assert r[1..] == items[1..];
        assert Keys(r) == Keys(items);
      } else {
        IncrementSpec(items[1..], t);
        var rest := Increment(items[1..], t);
        assert r[1..] == rest;
        assert t in Keys(items) <==> t in Keys(items[1..]) by {
          assert Keys(items) == [items[0].0] + Keys(items[1..]);
        }
        forall i, j | 0 <= i < j < |r| ensures r[i].0 != r[j].0 {
          if i == 0 {
            var ks := Keys(rest);
            assert ks[j - 1] == rest[j - 1].0;
            assert items[0].0 !in Keys(items[1..]) by {
              forall k | 0 <= k < |items[1..]| ensures Keys(items[1..])[k] != items[0].0 {
                assert items[1..][k] == items[k + 1];
              }
            }
          }
        }
        assert Keys(r) == [items[0].0] + Keys(rest);
      }
    }
  }

  /** How often `t` was recorded: the count starts at 0 and each record of
      `t` adds one. */
  function Tally(types: seq<string>, t: string): nat {
    if types == [] then 0 else Tally(types[..|types| - 1], t) + (if types[|types| - 1] == t then 1 else 0)
  }

  function IncrementAll(items: Counts, types: seq<string>): Counts
    decreases |types|
  {
    if types == [] then items else Increment(IncrementAll(items, types[..|types| - 1]), types[|types| - 1])
  }

  /** Starting from no counts, each type's count is the number of times it
      was recorded. */
  lemma {:induction false} CountsTally(types: seq<string>, t: string)
    ensures UniqueKeys(IncrementAll([], types))
    ensures CountOf(IncrementAll([], types), t) == Tally(types, t)
    decreases |types|
  {
    if types != [] {
      CountsTally(types[..|types| - 1], t);
      IncrementSpec(IncrementAll([], types[..|types| - 1]), types[|types| - 1]);
    }
  }

  // ------------------------------------------------------------ get_error_rate

  /** Operation outcomes: 0 for a success and 1 for a failure. */
  function Outcome(success: bool): int {
    if success then 0 else 1
  }

  predicate Outcomes(records: seq<int>) {
    forall i :: 0 <= i < |records| ==> records[i] == 0 || records[i] == 1
  }

  function SumInts(s: seq<int>): int {
    if s == [] then 0 else s[0] + SumInts(s[1..])
  }

  /** `sum(records) / len(records)`, or 0 for no records. */
  function ErrorRate(records: seq<int>): real {
    if records == [] then 0.0 else SumInts(records) as real / |records| as real
  }

  /** The number of failures lies between none and all of the records,
      and is 0 exactly when every record is a success. */
  lemma {:induction false} FailureCount(records: seq<int>)
    requires Outcomes(records)
    ensures 0 <= SumInts(records) <= |records|
    ensures SumInts(records) == 0 <==> forall i :: 0 <= i < |records| ==> records[i] == 0
  {
    if records != [] {
      FailureCount(records[1..]);
      assert forall i :: 1 <= i < |records| ==> records[i] == records[1..][i - 1];
    }
  }

  lemma Fraction(s: real, n: real)
    requires 0.0 <= s <= n && n > 0.0
    ensures 0.0 <= s / n <= 1.0
    ensures s / n == 0.0 <==> s == 0.0
    ensures s / n == 1.0 <==> s == n
  {
  }

  /** The error rate is a fraction: between 0 and 1, 0 exactly when no
      recorded operation failed, and 1 exactly when all of at least one
      did. */
  lemma ErrorRateBounds(records: seq<int>)
    requires Outcomes(records)
    ensures 0.0 <= ErrorRate(records) <= 1.0
    ensures ErrorRate(records) == 0.0 <==> forall i :: 0 <= i < |records| ==> records[i] == 0
    ensures ErrorRate(records) == 1.0 <==> records != [] && SumInts(records) == |records|
  {
    FailureCount(records);
    if records != [] {
      Fraction(SumInts(records) as real, |records| as real);
    }
  }

  // ---------------------------------------------------- get_most_common_errors

  /** Sorting by this key ascending is `sorted(key=count, reverse=True)`:
      Python's reversed sort is stable too. */
  function CountKey(item: (string, nat)): Key {
    Key(-(item.1 as int), 0)
  }

  /** `sorted(error_counts.items(), key=count, reverse=True)[:limit]`. */
  function MostCommon(items: Counts, limit: int): Counts {
    Take(SortBy(items, CountKey), limit)
  }

  predicate IsPrefix<T(==)>(a: seq<T>, b: seq<T>) {
    |a| <= |b| && a == b[..|a|]
  }

  lemma {:induction false} WithKeyTake<T>(s: seq<T>, key: T -> Key, k: Key, n: nat)
    requires n <= |s|
    ensures IsPrefix(WithKey(s[..n], key, k), WithKey(s, key, k))
    decreases n
  {
    if n > 0 {
      WithKeyTake(s[1..], key, k, n - 1);
      assert s[..n][1..] == s[1..][..n - 1];
      assert s[..n][0] == s[0];
    } else {
      assert s[..0] == [];
    }
  }

  /** The result is the first pairs of the pairs sorted by descending count. */
  lemma MostCommonPrefix(items: Counts, limit: int)
    ensures var r := MostCommon(items, limit);
      && |r| == (if limit >= 0 then Min(limit, |items|) else Max(0, |items| + limit))
      && r == SortBy(items, CountKey)[..|r|]
      && multiset(r) <= multiset(items)
  {
    var sorted := SortBy(items, CountKey);
    SortBySpec(items, CountKey);
    var r := MostCommon(items, limit);
    assert sorted == r + sorted[|r|..];
    assert multiset(sorted) == multiset(r) + multiset(sorted[|r|..]);
  }

  /** The counts returned never increase. */
  lemma MostCommonOrdered(items: Counts, limit: int)
    ensures var r := MostCommon(items, limit);
      forall i, j :: 0 <= i < j < |r| ==> r[i].1 >= r[j].1
  {
    var sorted := SortBy(items, CountKey);
    SortBySpec(items, CountKey);
    MostCommonPrefix(items, limit);
    var r := MostCommon(items, limit);
    forall i, j | 0 <= i < j < |r| ensures r[i].1 >= r[j].1 {
      assert KeyLe(CountKey(sorted[i]), CountKey(sorted[j]));
    }
  }

  /** No pair left out is more common than a pair returned. */
  lemma MostCommonTop(items: Counts, limit: int)
    ensures var r := MostCommon(items, limit);
      forall k, j :: 0 <= k < |r| && 0 <= j < |items| && items[j] !in r ==> items[j].1 <= r[k].1
  {
    var sorted := SortBy(items, CountKey);
    SortBySpec(items, CountKey);
    MostCommonPrefix(items, limit);
    var r := MostCommon(items, limit);
    forall k, j | 0 <= k < |r| && 0 <= j < |items| && items[j] !in r ensures items[j].1 <= r[k].1 {
      assert items[j] in multiset(sorted);
      var i :| 0 <= i < |sorted| && sorted[i] == items[j];
      assert KeyLe(CountKey(sorted[k]), CountKey(sorted[i]));
    }
  }

  /** Pairs with equal counts come back in first-recorded order: those of
      count `c` returned are the first ones of count `c` recorded. */
  lemma MostCommonStable(items: Counts, limit: int, c: nat)
    ensures IsPrefix(WithKey(MostCommon(items, limit), CountKey, Key(-(c as int), 0)),
                     WithKey(items, CountKey, Key(-(c as int), 0)))
  {
    var sorted := SortBy(items, CountKey);
    MostCommonPrefix(items, limit);
    var r := MostCommon(items, limit);
    SortByStable(items, CountKey, Key(-(c as int), 0));
    WithKeyTake(sorted, CountKey, Key(-(c as int), 0), |r|);
  }

  // -------------------------------------------------------------- the collector

  /** An entry of `last_errors`. */
  datatype ErrorRecord = ErrorRecord(errorType: string, timestamp: real, context: map<string, string>)

  /** `error_rates.get(op, [])`. */
  function RecordsOf(rates: map<string, seq<int>>, op: string): seq<int> {
    if op in rates then rates[op] else []
  }

  class ErrorMetrics {
    var errorCounts: Counts
    var errorRates: map<string, seq<int>>
    var lastErrors: seq<ErrorRecord>

    /** Distinct error types; every window holds at most `WindowSize`
        outcomes; at most `WindowSize` recent errors. */
    predicate Valid()
      reads this
    {
      && UniqueKeys(errorCounts)
      && (forall op :: op in errorRates ==> Outcomes(errorRates[op]) && |errorRates[op]| <= WindowSize)
      && |lastErrors| <= WindowSize
    }

    constructor()
      ensures errorCounts == [] && errorRates == map[] && lastErrors == []
      ensures Valid()
    {
      errorCounts := [];
      errorRates := map[];
      lastErrors := [];
    }

    /** `record_error(error_type, context)` at time `now`. */
    method RecordError(errorType: string, now: real, context: Option<map<string, string>>)
      modifies this
      ensures errorCounts == Increment(old(errorCounts), errorType)
      ensures lastErrors == Push(old(lastErrors), ErrorRecord(errorType, now, context.GetOr(map[])))
      ensures errorRates == old(errorRates)
      ensures old(Valid()) ==> Valid()
    {
      if Valid() {
        IncrementSpec(errorCounts, errorType);
      }
      errorCounts := Increment(errorCounts, errorType);
      var entry := ErrorRecord(errorType, now, context.GetOr(map[]));
      lastErrors := lastErrors + [entry];
      if |lastErrors| > WindowSize {
        lastErrors := lastErrors[1..];
      }
    }

    /** `record_operation(operation_type, success)`. */
    method RecordOperation(operationType: string, success: bool)
      modifies this
      ensures errorRates == old(errorRates)[operationType := Push(RecordsOf(old(errorRates), operationType), Outcome(success))]
      ensures errorCounts == old(errorCounts) && lastErrors == old(lastErrors)
      ensures old(Valid()) ==> Valid()
    {
      var records := RecordsOf(errorRates, operationType);
      records := records + [Outcome(success)];
      if |records| > WindowSize {
        records := records[1..];
      }
      errorRates := errorRates[operationType := records];
    }

    /** `get_error_rate(operation_type)`: a fraction of the operation's
        window, 0 for an operation never recorded. */
    method GetErrorRate(operationType: string) returns (rate: real)
      requires Valid()
      ensures rate == ErrorRate(RecordsOf(errorRates, operationType))
      ensures 0.0 <= rate <= 1.0
      ensures operationType !in errorRates ==> rate == 0.0
    {
      var records := RecordsOf(errorRates, operationType);
      ErrorRateBounds(records);
      if records == [] {
        return 0.0;
      }
      rate := SumInts(records) as real / |records| as real;
    }

    /** `get_most_common_errors(limit)`. */
    method GetMostCommonErrors(limit: int := 10) returns (r: Counts)
      ensures r == MostCommon(errorCounts, limit)
      ensures |r| <= |errorCounts|
      ensures forall i, j :: 0 <= i < j < |r| ==> r[i].1 >= r[j].1
    {
      MostCommonPrefix(errorCounts, limit);
      MostCommonOrdered(errorCounts, limit);
      r := Take(SortBy(errorCounts, CountKey), limit);
    }
  }
}
