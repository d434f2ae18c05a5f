/** `modutils/aio.py`, the function `aioloop`: the batch executor whose
    argument lists are the caller's own list objects. Before an entry is
    submitted, every dict found in it is popped out of the list and merged
    into the keyword arguments; the pops change the caller's lists. */
module Aio {
  import opened Base
  import opened PyValues
  import opened Batching

  /** State of the normalisation loop of one entry. */
  datatype NormState = NormState(items: seq<Value>, kwargs: map<Value, Value>, ok: bool)

  /** The loop `for index in range(0, n)` from `index == i` on. The range is
      fixed at the list's original length `n` while each dict found is popped,
      so reading `items[i]` can run past the end (an IndexError, `ok == false`). */
  function NormFrom(items: seq<Value>, kwargs: map<Value, Value>, i: nat, n: nat): NormState
    decreases n - i
  {
    if i >= n then NormState(items, kwargs, true)
    else if i >= |items| then NormState(items, kwargs, false)
    else if items[i].Dict? then NormFrom(items[..i] + items[i + 1..], kwargs + items[i].entries, i + 1, n)
    else NormFrom(items, kwargs, i + 1, n)
  }

  function NormRun(items: seq<Value>): NormState {
    NormFrom(items, map[], 0, |items|)
  }

  /** The call `partial(function, *fnargs, **fnkwargs)` an entry turns into,
      or the IndexError its normalisation raises. */
  function Normalised(items: seq<Value>): Result<Call> {
    var st := NormRun(items);
    if st.ok then Ok(Call(st.items, st.kwargs)) else Err(IndexError)
  }

  /** Once the list is shorter than the fixed range, the loop reaches an
      index past its end. */
  lemma {:induction false} NormShort(items: seq<Value>, kwargs: map<Value, Value>, i: nat, n: nat)
    requires |items| < n && i < n
    ensures !NormFrom(items, kwargs, i, n).ok
    decreases n - i
  {
    if i < |items| {
      if items[i].Dict? {
        NormShort(items[..i] + items[i + 1..], kwargs + items[i].entries, i + 1, n);
      } else {
        NormShort(items, kwargs, i + 1, n);
      }
    }
  }

  /** `after` is `before` with some dicts taken out. */
  predicate DictsRemoved(before: seq<Value>, after: seq<Value>) {
    |after| <= |before| && multiset(after) <= multiset(before) &&
    forall v :: v in multiset(before) - multiset(after) ==> v.Dict?
  }

  /** Popping a dict at index `i` takes out that dict and nothing else. */
  lemma PopDict(items: seq<Value>, i: nat)
    requires i < |items| && items[i].Dict?
    ensures DictsRemoved(items, items[..i] + items[i + 1..])
  {
    var rest := items[..i] + items[i + 1..];
    assert items == items[..i] + [items[i]] + items[i + 1..];
    assert multiset(items) == multiset(rest) + multiset{items[i]};
  }

  lemma DictsRemovedTrans(a: seq<Value>, b: seq<Value>, c: seq<Value>)
    requires DictsRemoved(a, b) && DictsRemoved(b, c)
    ensures DictsRemoved(a, c)
  {
    forall v | v in multiset(a) - multiset(c) ensures v.Dict? {
      if v !in multiset(a) - multiset(b) {
        assert v in multiset(b) - multiset(c);
      }
    }
  }

  /** The loop only ever removes dicts from the list. */
  lemma {:induction false} NormRemoves(items: seq<Value>, kwargs: map<Value, Value>, i: nat, n: nat)
    ensures DictsRemoved(items, NormFrom(items, kwargs, i, n).items)
    decreases n - i
  {
    if i < n && i < |items| {
      if items[i].Dict? {
        var rest := items[..i] + items[i + 1..];
        NormRemoves(rest, kwargs + items[i].entries, i + 1, n);
        PopDict(items, i);
        DictsRemovedTrans(items, rest, NormFrom(rest, kwargs + items[i].entries, i + 1, n).items);
      } else {
        NormRemoves(items, kwargs, i + 1, n);
      }
    } else {
      assert multiset(items) - multiset(items) == multiset{};
    }
  }

  /** The loop from `i` over a list nothing has been popped from yet. */
  lemma {:induction false} NormUnpopped(items: seq<Value>, kwargs: map<Value, Value>, i: nat)
    requires i <= |items|
    ensures var n := |items|;
            var st := NormFrom(items, kwargs, i, n);
            (st.ok <==> forall j :: i <= j < n - 1 ==> !items[j].Dict?) &&
            (st.ok && i < n && items[n - 1].Dict? ==> st.items == items[..n - 1] && st.kwargs == kwargs + items[n - 1].entries) &&
            (st.ok && !(i < n && items[n - 1].Dict?) ==> st.items == items && st.kwargs == kwargs) &&
            (!st.ok ==> |st.items| < n)
    decreases |items| - i
  {
    var n := |items|;
    if i < n {
      if items[i].Dict? {
        var rest := items[..i] + items[i + 1..];
        if i == n - 1 {
          assert rest == items[..n - 1];
        } else {
          NormShort(rest, kwargs + items[i].entries, i + 1, n);
          NormRemoves(rest, kwargs + items[i].entries, i + 1, n);
        }
      } else {
        NormUnpopped(items, kwargs, i + 1);
      }
    }
  }

  /** Only the last element may be a dict. */
  predicate DictOnlyLast(items: seq<Value>) {
    forall j :: 0 <= j < |items| - 1 ==> !items[j].Dict?
  }

  /** Normalisation succeeds exactly when no element but the last is a dict;
      a dict in last place becomes the keyword arguments and the other
      elements stay positional, in order. On failure the IndexError is raised
      after at least one dict was popped from the caller's list. */
  lemma NormaliseCases(items: seq<Value>)
    ensures Normalised(items).Ok? <==> DictOnlyLast(items)
    ensures Normalised(items).Ok? && |items| > 0 && items[|items| - 1].Dict? ==>
              Normalised(items).value == Call(items[..|items| - 1], items[|items| - 1].entries)
    ensures Normalised(items).Ok? && (|items| == 0 || !items[|items| - 1].Dict?) ==>
              Normalised(items).value == Call(items, map[])
    ensures Normalised(items).Ok? ==> NormRun(items).items == Normalised(items).value.args
    ensures Normalised(items).Err? ==> Normalised(items).error == IndexError && |NormRun(items).items| < |items|
  {
    NormUnpopped(items, map[], 0);
    var empty: map<Value, Value> := map[];
    assert empty + empty == empty;
    if |items| > 0 && items[|items| - 1].Dict? {
      assert empty + items[|items| - 1].entries == items[|items| - 1].entries;
    }
  }

  /** The caller's list afterwards has lost only dicts. */
  lemma NormaliseRemovesDicts(items: seq<Value>)
    ensures multiset(NormRun(items).items) <= multiset(items)
    ensures forall v :: v in multiset(items) - multiset(NormRun(items).items) ==> v.Dict?
  {
    NormRemoves(items, map[], 0, |items|);
  }

  /** A dict before the last element, as in `[{'a': 1}, 2]`, raises. */
  lemma LeadingDictRaises()
    ensures Normalised([Dict(map[Str("a") := Int(1)]), Int(2)]) == Err(IndexError)
  {
    var xs := [Dict(map[Str("a") := Int(1)]), Int(2)];
    assert xs[0].Dict?;
    NormaliseCases(xs);
  }

  /** A caller's argument list: a Python list object that normalisation
      changes in place. */
  class ArgList {
    var items: seq<Value>

    constructor (items: seq<Value>)
      ensures this.items == items
    {
      this.items := items;
    }

    /** Pops every dict the loop inspects out of this list and merges it into
        the keyword arguments (later keys win). */
    method Normalise() returns (r: Result<Call>)
      modifies this
      ensures items == NormRun(old(items)).items
      ensures r == Normalised(old(items))
    {
      var kwargs: map<Value, Value> := map[];
      var n := |items|;
      for index := 0 to n
        invariant NormFrom(items, kwargs, index, n) == NormRun(old(items))
      {
        if index >= |items| {
          return Err(IndexError);
        }
        if items[index].Dict? {
          var d := items[index].entries;
          items := items[..index] + items[index + 1..];
          kwargs := kwargs + d;
        }
      }
      return Ok(Call(items, kwargs));
    }
  }

  /** The contents of every argument list, by object: two entries of the
      batch may be the same list. */
  type Store = map<ArgList, seq<Value>>

  predicate Covers(store: Store, args: seq<ArgList>) {
    forall a :: a in args ==> a in store
  }

  function Contents(store: Store, args: seq<ArgList>): (vs: seq<seq<Value>>)
    requires Covers(store, args)
    ensures |vs| == |args| && forall k :: 0 <= k < |args| ==> vs[k] == store[args[k]]
  {
    seq(|args|, k requires 0 <= k < |args| => store[args[k]])
  }

  datatype Prepared = Prepared(calls: Result<seq<Call>>, store: Store)

  function PrependPrepared(calls: seq<Call>, p: Prepared): Prepared {
    Prepared(Prepend(calls, p.calls), p.store)
  }

  /** Normalising entries `i .. j-1` in order, each over the current contents
      of its list: a list an earlier entry already changed is seen
      changed. */
  function PrepareRange(store: Store, args: seq<ArgList>, i: nat, j: nat): (r: Prepared)
    requires Covers(store, args) && i <= j <= |args|
    ensures r.store.Keys == store.Keys
    ensures r.calls.Ok? ==> |r.calls.value| == j - i
    decreases j - i
  {
    if i == j then Prepared(Ok([]), store)
    else
      var a := args[i];
      var after := store[a := NormRun(store[a]).items];
      match Normalised(store[a])
      case Err(e) => Prepared(Err(e), after)
      case Ok(call) => PrependPrepared([call], PrepareRange(after, args, i + 1, j))
  }

  /** A list that is none of entries `i .. j-1` keeps its contents. */
  lemma {:induction false} PrepareRangeFrame(store: Store, args: seq<ArgList>, i: nat, j: nat, a: ArgList)
    requires Covers(store, args) && i <= j <= |args| && a in store
    requires forall t :: i <= t < j ==> args[t] != a
    ensures PrepareRange(store, args, i, j).store[a] == store[a]
    decreases j - i
  {
    if i < j {
      var after := store[args[i] := NormRun(store[args[i]]).items];
      PrepareRangeFrame(after, args, i + 1, j, a);
    }
  }

  datatype Outcome = Outcome(result: Result<seq<Value>>, store: Store)

  function PrependOutcome(rs: seq<Value>, o: Outcome): Outcome {
    Outcome(Prepend(rs, o.result), o.store)
  }

  lemma PrependOutcomeAssoc(a: seq<Value>, b: seq<Value>, o: Outcome)
    ensures PrependOutcome(a, PrependOutcome(b, o)) == PrependOutcome(a + b, o)
  {
    PrependAssoc(a, b, o.result);
  }

  /** The chunks `args_list[i:i+m]`, `args_list[i+m:i+2m]`, ... (chunk number
      `c` first), for `m > 0`: what they yield and what they leave in the
      lists. */
  function AioAt(fn: Call -> Result<Value>, store: Store, args: seq<ArgList>, i: nat, m: int,
                 orders: Orders, c: nat): (o: Outcome)
    requires m > 0 && Covers(store, args)
    ensures o.store.Keys == store.Keys
    decreases |args| - i
  {
    if i >= |args| then Outcome(Ok([]), store)
    else
      var prep := PrepareRange(store, args, i, Min(i + m, |args|));
      match prep.calls
      case Err(e) => Outcome(Err(e), prep.store)
      case Ok(calls) =>
        match Collect(Tasks(fn, calls), orders(c))
        case Err(e) => Outcome(Err(e), prep.store)
        case Ok(rs) => PrependOutcome(rs, AioAt(fn, prep.store, args, i + m, m, orders, c + 1))
  }

  /** What `aioloop(function, args_list, max_async_pool=pool,
      max_futures=m)` returns and what it leaves in the caller's lists. The
      thread pool is created first (aio.py:40), and raises ValueError for a
      size that is not positive. */
  function AioSpec(fn: Call -> Result<Value>, store: Store, args: seq<ArgList>, pool: int, m: int, orders: Orders): Outcome
    requires Covers(store, args)
  {
    if pool <= 0 then Outcome(Err(ValueError), store)
    else if m == 0 then Outcome(Err(ValueError), store)
    else if m < 0 then Outcome(Ok([]), store)
    else AioAt(fn, store, args, 0, m, orders, 0)
  }

  function Snapshot(args: seq<ArgList>): (s: Store)
    reads args
    ensures Covers(s, args)
  {
    map a | a in args :: a.items
  }

  /** Normalising entry `a` of the batch: only `a`'s contents change. */
  method NormaliseEntry(argsList: seq<ArgList>, a: ArgList) returns (call: Result<Call>)
    requires a in argsList
    modifies a
    ensures call == Normalised(old(a.items))
    ensures Snapshot(argsList) == old(Snapshot(argsList))[a := NormRun(old(a.items)).items]
  {
    call := a.Normalise();
  }

  /** The normalisation of entries `i .. j-1`, in order (aio.py:43-48). */
  method PrepareChunk(argsList: seq<ArgList>, i: nat, j: nat) returns (calls: Result<seq<Call>>)
    requires i <= j <= |argsList|
    modifies argsList
    ensures PrepareRange(old(Snapshot(argsList)), argsList, i, j) == Prepared(calls, Snapshot(argsList))
  {
    ghost var before := Snapshot(argsList);
    var done: seq<Call> := [];
    assert PrependPrepared([], PrepareRange(before, argsList, i, j)) == PrepareRange(before, argsList, i, j) by {
      var p := PrepareRange(before, argsList, i, j);
      assert p.calls.Ok? ==> [] + p.calls.value == p.calls.value;
    }
    for t := i to j
      invariant PrepareRange(before, argsList, i, j) == PrependPrepared(done, PrepareRange(Snapshot(argsList), argsList, t, j))
    {
      var call := NormaliseEntry(argsList, argsList[t]);
      if call.Err? {
        return Err(call.error);
      }
      PrependAssoc(done, [call.value], PrepareRange(Snapshot(argsList), argsList, t + 1, j).calls);
      done := done + [call.value];
    }
    assert done + [] == done;
    return Ok(done);
  }

  /** The loop's invariant: what the whole batch yields is the results
      gathered so far followed by what the chunks from `index` on yield over
      the lists' current state. */
  ghost predicate Running(fn: Call -> Result<Value>, whole: Outcome, results: seq<Value>,
                          args: seq<ArgList>, index: nat, orders: Orders, c: nat, m: int)
    reads args
  {
    m > 0 && whole == PrependOutcome(results, AioAt(fn, Snapshot(args), args, index, m, orders, c))
  }

  /** One chunk of the executor (aio.py:42-52), the one starting at `index`:
      normalise its entries, then gather the results of their calls in
      completion order `orders(c)`. */
  method ExecuteChunk(fn: Call -> Result<Value>, argsList: seq<ArgList>, m: int, ghost whole: Outcome,
                      ghost results: seq<Value>, index: nat, orders: Orders, c: nat)
    returns (out: Result<seq<Value>>)
    requires index < |argsList|
    requires Running(fn, whole, results, argsList, index, orders, c, m)
    modifies argsList
    ensures out.Err? ==> whole == Outcome(Err(out.error), Snapshot(argsList))
    ensures out.Ok? ==> Running(fn, whole, results + out.value, argsList, index + m, orders, c + 1, m)
  {
    var prepared := PrepareChunk(argsList, index, Min(index + m, |argsList|));
    if prepared.Err? {
      return Err(prepared.error);
    }
    out := Collect(Tasks(fn, prepared.value), orders(c));
    if out.Ok? {
      PrependOutcomeAssoc(results, out.value, AioAt(fn, Snapshot(argsList), argsList, index + m, m, orders, c + 1));
    }
  }

  /** The chunk loop of the executor coroutine (aio.py:41-53), for a
      positive `max_futures`: `whole` is what the batch yields. */
  method ExecuteAll(fn: Call -> Result<Value>, argsList: seq<ArgList>, maxFutures: int,
                    orders: Orders, ghost whole: Outcome) returns (r: Result<seq<Value>>)
    requires maxFutures > 0
    requires whole == AioAt(fn, Snapshot(argsList), argsList, 0, maxFutures, orders, 0)
    modifies argsList
    ensures r == whole.result && Snapshot(argsList) == whole.store
  {
    var n := |argsList|;
    var results: seq<Value> := [];
    var index := 0;
    var c := 0;
    assert whole.result.Ok? ==> [] + whole.result.value == whole.result.value;
    while index < n
      invariant Running(fn, whole, results, argsList, index, orders, c, maxFutures)
      decreases n - index
    {
      var out := ExecuteChunk(fn, argsList, maxFutures, whole, results, index, orders, c);
      if out.Err? {
        return Err(out.error);
      }
      results := results + out.value;
      index := index + maxFutures;
      c := c + 1;
    }
    assert AioAt(fn, Snapshot(argsList), argsList, index, maxFutures, orders, c) == Outcome(Ok([]), Snapshot(argsList));
    assert results + [] == results;
    return Ok(results);
  }

  /** The executor coroutine of `aioloop`: chunk by chunk, normalise every
      entry (changing the caller's lists), then gather the chunk's results in
      completion order `orders(c)`. */
  method AioLoop(fn: Call -> Result<Value>, argsList: seq<ArgList>, maxAsyncPool: int, maxFutures: int, orders: Orders)
    returns (r: Result<seq<Value>>)
    modifies argsList
    ensures r == AioSpec(fn, old(Snapshot(argsList)), argsList, maxAsyncPool, maxFutures, orders).result
    ensures Snapshot(argsList) == AioSpec(fn, old(Snapshot(argsList)), argsList, maxAsyncPool, maxFutures, orders).store
  {
    if maxAsyncPool <= 0 {
      return Err(ValueError);
    }
    if maxFutures == 0 {
      return Err(ValueError);
    }
    if maxFutures < 0 {
      return Ok([]);
    }
    r := ExecuteAll(fn, argsList, maxFutures, orders, AioAt(fn, Snapshot(argsList), argsList, 0, maxFutures, orders, 0));
  }

  predicate Distinct(args: seq<ArgList>) {
    forall i, j :: 0 <= i < j < |args| ==> args[i] != args[j]
  }

  /** With distinct list objects, normalising entries `i .. j-1` is
      normalising each entry's own contents. */
  lemma {:induction false} PrepareRangePure(store: Store, args: seq<ArgList>, i: nat, j: nat, entries: seq<seq<Value>>)
    requires Covers(store, args) && Distinct(args) && i <= j <= |args| == |entries|
    requires forall t :: i <= t < j ==> store[args[t]] == entries[t]
    ensures PrepareRange(store, args, i, j).calls == PrepareAll(Normalised, entries[i..j])
    decreases j - i
  {
    if i < j {
      var a := args[i];
      var after := store[a := NormRun(store[a]).items];
      forall t | i + 1 <= t < j ensures after[args[t]] == entries[t] {
        assert args[t] != a;
      }
      PrepareRangePure(after, args, i + 1, j, entries);
      assert entries[i..j][1..] == entries[i + 1..j];
    }
  }

  /** With distinct list objects, an entry after `j` is untouched by
      normalising entries `i .. j-1`. */
  lemma PrepareRangeLater(store: Store, args: seq<ArgList>, i: nat, j: nat, t: nat)
    requires Covers(store, args) && Distinct(args) && i <= j <= t < |args|
    ensures PrepareRange(store, args, i, j).store[args[t]] == store[args[t]]
  {
    PrepareRangeFrame(store, args, i, j, args[t]);
  }

  /** The chunk at `i` yields what its pure counterpart yields once its
      normalisations agree and the chunks after it do. */
  lemma AioAtPureStep(fn: Call -> Result<Value>, store: Store, args: seq<ArgList>, i: nat, m: int,
                      orders: Orders, c: nat, entries: seq<seq<Value>>, j: nat, prep: Prepared)
    requires m > 0 && Covers(store, args) && i < |args| == |entries| && j == Min(i + m, |args|)
    requires prep == PrepareRange(store, args, i, j)
    requires prep.calls == PrepareAll(Normalised, entries[i..j])
    requires AioAt(fn, prep.store, args, i + m, m, orders, c + 1).result == RunFrom(Normalised, fn, entries, i + m, m, orders, c + 1)
    ensures AioAt(fn, store, args, i, m, orders, c).result == RunFrom(Normalised, fn, entries, i, m, orders, c)
  {
    if prep.calls.Ok? {
      var out := Collect(Tasks(fn, prep.calls.value), orders(c));
      assert RunChunk(Normalised, fn, entries[i..j], orders(c)) == out;
    }
  }

  /** With distinct list objects, the chunks from entry `i` on compute the
      pure batch plan over the lists' contents. */
  lemma {:induction false} AioAtPure(fn: Call -> Result<Value>, store: Store, args: seq<ArgList>, i: nat, m: int,
                                     orders: Orders, c: nat, entries: seq<seq<Value>>)
    requires m > 0 && Covers(store, args) && Distinct(args) && |args| == |entries|
    requires forall t :: i <= t < |args| ==> store[args[t]] == entries[t]
    ensures AioAt(fn, store, args, i, m, orders, c).result == RunFrom(Normalised, fn, entries, i, m, orders, c)
    decreases |args| - i
  {
    if i < |args| {
      var j := Min(i + m, |args|);
      PrepareRangePure(store, args, i, j, entries);
      var prep := PrepareRange(store, args, i, j);
      forall t | i + m <= t < |args| ensures prep.store[args[t]] == entries[t] {
        PrepareRangeLater(store, args, i, j, t);
      }
      AioAtPure(fn, prep.store, args, i + m, m, orders, c + 1, entries);
      AioAtPureStep(fn, store, args, i, m, orders, c, entries, j, prep);
    }
  }

  /** With distinct list objects, `aioloop` is the pure batch plan over the
      lists' contents: every property of `Batching.RunPooled` holds of it. */
  lemma AioPure(fn: Call -> Result<Value>, store: Store, args: seq<ArgList>, pool: int, m: int, orders: Orders)
    requires Covers(store, args) && Distinct(args)
    ensures AioSpec(fn, store, args, pool, m, orders).result == RunPooled(Normalised, fn, Contents(store, args), pool, m, orders)
  {
    if pool > 0 && m > 0 {
      AioAtPure(fn, store, args, 0, m, orders, 0, Contents(store, args));
    }
  }

  /** The entry has a dict only in last place, and `function` succeeds on
      the call it normalises to. */
  predicate CallSucceeds(fn: Call -> Result<Value>, items: seq<Value>) {
    DictOnlyLast(items) && fn(Call(NormRun(items).items, NormRun(items).kwargs)).Ok?
  }

  /** `aioloop` over distinct lists succeeds exactly when `max_async_pool`
      is positive, `max_futures != 0` and, for a positive `max_futures`,
      every entry has a dict only in last place and every call of `function`
      succeeds. */
  lemma AioOkIff(fn: Call -> Result<Value>, store: Store, args: seq<ArgList>, pool: int, m: int, orders: Orders)
    requires ValidOrders(orders, |args|, m) && Covers(store, args) && Distinct(args)
    ensures AioSpec(fn, store, args, pool, m, orders).result.Ok? <==>
            pool > 0 && m != 0 && (m < 0 || forall k :: 0 <= k < |args| ==> CallSucceeds(fn, store[args[k]]))
  {
    AioPure(fn, store, args, pool, m, orders);
    var entries := Contents(store, args);
    PooledOkIff(Normalised, fn, entries, pool, m, orders);
    forall k | 0 <= k < |args|
      ensures TaskOf(Normalised, fn, entries[k]).Ok? <==> CallSucceeds(fn, store[args[k]])
    {
      NormaliseCases(store[args[k]]);
    }
  }

  /** A pool size that is not positive raises ValueError, whatever the
      batch; on a pool, `max_futures == 0` raises ValueError and a negative
      one returns `[]`; all of these before any list is touched. On a pool,
      an empty batch returns `[]`. */
  lemma AioEdgeCases(fn: Call -> Result<Value>, store: Store, args: seq<ArgList>, pool: int, m: int, orders: Orders)
    requires Covers(store, args)
    ensures pool <= 0 ==> AioSpec(fn, store, args, pool, m, orders) == Outcome(Err(ValueError), store)
    ensures pool > 0 && m == 0 ==> AioSpec(fn, store, args, pool, m, orders) == Outcome(Err(ValueError), store)
    ensures pool > 0 && m < 0 ==> AioSpec(fn, store, args, pool, m, orders) == Outcome(Ok([]), store)
    ensures pool > 0 && m != 0 && args == [] ==> AioSpec(fn, store, args, pool, m, orders) == Outcome(Ok([]), store)
  {
  }

  /** The same list object twice in one chunk: the first normalisation pops
      its dict, so the second entry is called without keyword arguments. */
  lemma AliasedEntry(a: ArgList)
    ensures var store := map[a := [Int(1), Dict(map[Str("k") := Int(2)])]];
            PrepareRange(store, [a, a], 0, 2).calls ==
              Ok([Call([Int(1)], map[Str("k") := Int(2)]), Call([Int(1)], map[])])
  {
    var items := [Int(1), Dict(map[Str("k") := Int(2)])];
    var store := map[a := items];
    NormaliseCases(items);
    assert DictOnlyLast(items) by { assert !items[0].Dict?; }
    assert items[..1] == [Int(1)] && items[1].entries == map[Str("k") := Int(2)];
    assert Normalised(items) == Ok(Call([Int(1)], map[Str("k") := Int(2)]));
    assert NormRun(items).items == [Int(1)];
    var after := store[a := [Int(1)]];
    NormaliseCases([Int(1)]);
    assert DictOnlyLast([Int(1)]);
    assert Normalised([Int(1)]) == Ok(Call([Int(1)], map[]));
    assert NormRun([Int(1)]).items == [Int(1)];
    var last := after[a := [Int(1)]];
    assert after[a] == [Int(1)];
    assert PrepareRange(last, [a, a], 2, 2).calls == Ok([]);
    assert [Call([Int(1)], map[])] + [] == [Call([Int(1)], map[])];
    assert PrepareRange(after, [a, a], 1, 2).calls == Ok([Call([Int(1)], map[])]);
    assert store[a] == items && store[a := NormRun(store[a]).items] == after;
    assert PrepareRange(store, [a, a], 0, 2) == PrependPrepared([Call([Int(1)], map[Str("k") := Int(2)])], PrepareRange(after, [a, a], 1, 2));
    assert [Call([Int(1)], map[Str("k") := Int(2)])] + [Call([Int(1)], map[])] ==
           [Call([Int(1)], map[Str("k") := Int(2)]), Call([Int(1)], map[])];
  }
}
