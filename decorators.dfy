/** `modutils/decorators.py`, the class `aiobulk` (`modutils/aio.py:64-133`
    holds the same class): a decorator that remembers the instance it was
    fetched through and offers a `bulk` form of the decorated function,
    running it over many argument lists with `aio.aioloop`. */
module Decorators {
  import opened Base
  import opened PyValues
  import opened Batching
  import opened Aio

  /** The positional arguments after the bound instance `receiver` (Python's
      `None` when unbound) is put in front. */
  function Receiver(receiver: Value, args: seq<Value>): seq<Value> {
    if receiver == PyNone then args else [receiver] + args
  }

  /** `[[self.__self__] + args for args in args_list]`. */
  function Prefixed(receiver: Value, entries: seq<seq<Value>>): (r: seq<seq<Value>>) {
    seq(|entries|, k requires 0 <= k < |entries| => [receiver] + entries[k])
  }

  /** `function(self, *args, **kwargs)` for the call entry `e` normalises
      to, or the normalisation's error. */
  function BoundTask(fn: Call -> Result<Value>, receiver: Value, e: seq<Value>): Result<Value> {
    match Normalised(e)
    case Err(x) => Err(x)
    case Ok(c) => fn(Call([receiver] + c.args, c.kwargs))
  }

  /** An instance that is not a dict stays positional when it is put in
      front of an entry: normalising `[self] + e` is normalising `e` with
      `self` as first positional argument. */
  lemma PrefixedCall(fn: Call -> Result<Value>, receiver: Value, e: seq<Value>)
    requires !receiver.Dict?
    ensures TaskOf(Normalised, fn, [receiver] + e) == BoundTask(fn, receiver, e)
  {
    var p := [receiver] + e;
    NormaliseCases(e);
    NormaliseCases(p);
    assert forall j :: 0 <= j < |e| ==> p[j + 1] == e[j];
    assert DictOnlyLast(p) <==> DictOnlyLast(e) by {
      if DictOnlyLast(e) {
        forall j | 0 <= j < |p| - 1 ensures !p[j].Dict? {
          if j > 0 { assert p[j] == e[j - 1]; }
        }
      }
      if DictOnlyLast(p) {
        forall j | 0 <= j < |e| - 1 ensures !e[j].Dict? {
          assert e[j] == p[j + 1];
        }
      }
    }
    if |e| > 0 && e[|e| - 1].Dict? {
      assert p[|p| - 1] == e[|e| - 1];
      assert p[..|p| - 1] == [receiver] + e[..|e| - 1];
    }
  }

  /** Bound to an instance that is not a dict, `bulk` with a positive
      `max_futures` succeeds exactly when the pool size is positive and
      every call `function(self, *args, **kwargs)` of an entry succeeds; it
      then gives one result per entry, the values of those calls in
      completion order. */
  lemma BoundBulk(fn: Call -> Result<Value>, receiver: Value, entries: seq<seq<Value>>,
                  pool: int, m: int, orders: Orders)
    requires !receiver.Dict? && m > 0 && ValidOrders(orders, |entries|, m)
    ensures var prefixed := Prefixed(receiver, entries);
            forall k :: 0 <= k < |entries| ==> TaskOf(Normalised, fn, prefixed[k]) == BoundTask(fn, receiver, entries[k])
    ensures var r := RunPooled(Normalised, fn, Prefixed(receiver, entries), pool, m, orders);
            r.Ok? <==> pool > 0 && forall k :: 0 <= k < |entries| ==> BoundTask(fn, receiver, entries[k]).Ok?
    ensures var prefixed := Prefixed(receiver, entries);
            var r := RunPooled(Normalised, fn, prefixed, pool, m, orders);
            r.Ok? ==> TasksOk(Normalised, fn, prefixed) && |r.value| == |entries| &&
                      multiset(r.value) == multiset(TaskValues(Normalised, fn, prefixed))
  {
    var prefixed := Prefixed(receiver, entries);
    forall k | 0 <= k < |entries|
      ensures TaskOf(Normalised, fn, prefixed[k]) == BoundTask(fn, receiver, entries[k])
    {
      PrefixedCall(fn, receiver, entries[k]);
    }
    PooledOkIff(Normalised, fn, prefixed, pool, m, orders);
    if pool > 0 && RunBatch(Normalised, fn, prefixed, m, orders).Ok? {
      BatchResults(Normalised, fn, prefixed, m, orders);
    }
  }

  /** `[[self.__self__] + args for args in args_list]`: one new list per
      entry, the caller's lists left as they were. */
  method PrefixLists(receiver: Value, argsList: seq<ArgList>) returns (lists: seq<ArgList>)
    ensures |lists| == |argsList| && Distinct(lists)
    ensures forall t :: 0 <= t < |lists| ==> fresh(lists[t])
    ensures Contents(Snapshot(lists), lists) == Prefixed(receiver, Contents(Snapshot(argsList), argsList))
  {
    lists := [];
    for k := 0 to |argsList|
      invariant |lists| == k
      invariant forall t :: 0 <= t < k ==> fresh(lists[t]) && lists[t].items == [receiver] + argsList[t].items
      invariant Distinct(lists)
    {
      var list := new ArgList([receiver] + argsList[k].items);
      lists := lists + [list];
    }
  }

  /** The decorator object. `receiver` is `__self__`, `bound` is
      `__bound__`. */
  class AioBulk {
    const bound: Call -> Result<Value>
    var receiver: Value

    /** `__call__`: the decorated function, with the bound instance first
        when there is one. */
    function Invoke(args: seq<Value>, kwargs: map<Value, Value>): (r: Result<Value>)
      reads this
    {
      bound(Call(Receiver(receiver, args), kwargs))
    }

    /** `__init__`: nothing is bound yet, so calling the decorator is calling
        the function with the same arguments. */
    constructor (fn: Call -> Result<Value>)
      ensures bound == fn && receiver == PyNone
      ensures forall args, kwargs :: Invoke(args, kwargs) == fn(Call(args, kwargs))
    {
      bound := fn;
      receiver := PyNone;
    }

    /** `__get__`: an instance other than `None` is bound, replacing any
        earlier one; `None` leaves the binding as it was. The decorator
        itself is returned either way. */
    method Get(instance: Value) returns (r: AioBulk)
      modifies this
      ensures r == this
      ensures receiver == (if instance == PyNone then old(receiver) else instance)
      ensures instance != PyNone ==> forall args, kwargs :: Invoke(args, kwargs) == bound(Call([instance] + args, kwargs))
    {
      if instance != PyNone {
        receiver := instance;
      }
      return this;
    }

    /** `__get__` as evidently intended: each access through an instance
        gets a binding of its own, and the decorator itself is left
        unbound. */
    method BindTo(instance: Value) returns (r: AioBulk)
      ensures fresh(r) && r.bound == bound
      ensures r.receiver == (if instance == PyNone then receiver else instance)
    {
      r := new AioBulk(bound);
      if instance != PyNone {
        r.receiver := instance;
      } else {
        r.receiver := receiver;
      }
    }

    /** `bulk`: unbound, the caller's own lists go to `aio.aioloop`, which
        changes them as it normalises them. Bound, fresh lists
        `[instance] + args` go instead, and the caller's lists are left as
        they were. */
    method Bulk(argsList: seq<ArgList>, maxAsyncPool: int, maxFutures: int, orders: Orders) returns (r: Result<seq<Value>>)
      modifies argsList
      ensures receiver == PyNone ==>
                r == AioSpec(bound, old(Snapshot(argsList)), argsList, maxAsyncPool, maxFutures, orders).result &&
                Snapshot(argsList) == AioSpec(bound, old(Snapshot(argsList)), argsList, maxAsyncPool, maxFutures, orders).store
      ensures receiver != PyNone ==>
                Snapshot(argsList) == old(Snapshot(argsList)) &&
                r == RunPooled(Normalised, bound, Prefixed(receiver, Contents(old(Snapshot(argsList)), argsList)),
                               maxAsyncPool, maxFutures, orders)
    {
      if receiver == PyNone {
        r := AioLoop(bound, argsList, maxAsyncPool, maxFutures, orders);
        return;
      }
      var lists := PrefixLists(receiver, argsList);
      ghost var start := Snapshot(lists);
      AioPure(bound, start, lists, maxAsyncPool, maxFutures, orders);
      r := AioLoop(bound, lists, maxAsyncPool, maxFutures, orders);
      assert forall a :: a in argsList ==> a !in lists;
    }
  }

  /** The decorator is one object shared by every instance of the class:
      fetching the method through a second instance rebinds the handle
      fetched through the first, which then calls with the second
      instance. */
  method SharedBinding(fn: Call -> Result<Value>) returns (first: AioBulk, second: AioBulk)
    ensures first == second && first.receiver == Int(2)
    ensures forall args, kwargs :: first.Invoke(args, kwargs) == fn(Call([Int(2)] + args, kwargs))
  {
    var decorator := new AioBulk(fn);
    first := decorator.Get(Int(1));
    second := decorator.Get(Int(2));
  }

  /** With a binding per access, each handle keeps its own instance. */
  method SeparateBindings(fn: Call -> Result<Value>) returns (first: AioBulk, second: AioBulk)
    ensures first != second && first.receiver == Int(1) && second.receiver == Int(2)
    ensures forall args, kwargs :: first.Invoke(args, kwargs) == fn(Call([Int(1)] + args, kwargs))
    ensures forall args, kwargs :: second.Invoke(args, kwargs) == fn(Call([Int(2)] + args, kwargs))
  {
    var decorator := new AioBulk(fn);
    first := decorator.BindTo(Int(1));
    second := decorator.BindTo(Int(2));
  }

  /** The docstring's `add(x: int, y: int) -> int`: two integers, no keyword
      arguments. */
  function Add(c: Call): Result<Value> {
    if |c.args| == 2 && c.args[0].Int? && c.args[1].Int? && c.kwargs == map[]
    then Ok(Int(c.args[0].i + c.args[1].i))
    else Err(TypeError)
  }

  /** Every entry is a pair of integers. */
  predicate IntPairs(entries: seq<seq<Value>>) {
    forall k :: 0 <= k < |entries| ==> |entries[k]| == 2 && entries[k][0].Int? && entries[k][1].Int?
  }

  /** The sum of each pair. */
  function Sums(entries: seq<seq<Value>>): (r: seq<Value>)
    requires IntPairs(entries)
  {
    seq(|entries|, k requires 0 <= k < |entries| => Int(entries[k][0].i + entries[k][1].i))
  }

  /** `add` succeeds on every pair of integers, with their sum. */
  lemma AddPairs(entries: seq<seq<Value>>)
    requires IntPairs(entries)
    ensures TasksOk(Normalised, Add, entries)
    ensures TaskValues(Normalised, Add, entries) == Sums(entries)
  {
    forall k | 0 <= k < |entries|
      ensures TaskOf(Normalised, Add, entries[k]) == Ok(Int(entries[k][0].i + entries[k][1].i))
    {
      NormaliseCases(entries[k]);
      assert DictOnlyLast(entries[k]);
    }
  }

  /** `[[x, y] for x in range(0, 5) for y in range(5, 10)]`. */
  function DocstringPairs(): (r: seq<seq<Value>>) {
    seq(25, k requires 0 <= k < 25 => [Int(k / 5), Int(5 + k % 5)])
  }

  /** The docstring's `add.bulk(args)` with the default `max_async_pool`
      and `max_futures` (unbound, over 25 distinct lists): it succeeds with 25 results, the 25
      sums in completion order. */
  lemma DocstringExample(store: Store, args: seq<ArgList>, orders: Orders)
    requires Covers(store, args) && Distinct(args) && Contents(store, args) == DocstringPairs()
    requires IsPermutation(orders(0), 25)
    ensures IntPairs(DocstringPairs())
    ensures AioSpec(Add, store, args, 16, 100000, orders).result.Ok?
    ensures |AioSpec(Add, store, args, 16, 100000, orders).result.value| == 25
    ensures multiset(AioSpec(Add, store, args, 16, 100000, orders).result.value) == multiset(Sums(DocstringPairs()))
  {
    var entries := DocstringPairs();
    assert ValidOrders(orders, 25, 100000);
    AioPure(Add, store, args, 16, 100000, orders);
    AddPairs(entries);
    BatchOkIff(Normalised, Add, entries, 100000, orders);
    BatchResults(Normalised, Add, entries, 100000, orders);
  }
}
