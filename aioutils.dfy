/** `modutils/aioutils.py`: the class `aioloop`, a batch executor whose
    entries are spread into `aioexecute(args, kwargs)`. Unlike `aio.aioloop`
    it never changes the caller's entries. */
module AioUtils {
  import opened Base
  import opened PyValues
  import opened Batching

  /** An asyncio event loop, known only by identity. */
  datatype EventLoop = EventLoop(id: nat)

  /** Python's `*v` in a call: the elements of a list or tuple, the
      one-character strings of a string. Spreading a dict yields its keys in
      insertion order, which this model does not keep; anything else is not
      iterable. */
  function Unpack(v: Value): (r: Result<seq<Value>>)
    ensures r.Ok? <==> v.List? || v.Tuple? || v.Str?
    ensures r.Err? ==> r.error == (if v.Dict? then Unmodelled else TypeError)
    ensures (v.List? || v.Tuple?) ==> r == Ok(v.items)
    ensures v.Str? ==> r.Ok? && |r.value| == |v.s| && forall i :: 0 <= i < |v.s| ==> r.value[i] == Str([v.s[i]])
  {
    match v
    case List(xs) => Ok(xs)
    case Tuple(xs) => Ok(xs)
    case Str(s) => Ok(seq(|s|, i requires 0 <= i < |s| => Str([s[i]])))
    case Dict(_) => Err(Unmodelled)
    case _ => Err(TypeError)
  }

  /** `aioexecute(*entry)`: at most two positional values bind to
      `args=None, kwargs=None`; a falsy one is replaced by `[]` or `{}`; the
      first is spread into positional arguments and the second must be a
      mapping. */
  function Execute(fn: Call -> Result<Value>, elems: seq<Value>): Result<Value> {
    if |elems| > 2 then Err(TypeError)
    else
      var args := if |elems| >= 1 && Truthy(elems[0]) then elems[0] else List([]);
      var kwargs := if |elems| == 2 && Truthy(elems[1]) then elems[1] else Dict(map[]);
      match Unpack(args)
      case Err(e) => Err(e)
      case Ok(positional) =>
        if kwargs.Dict? then fn(Call(positional, kwargs.entries)) else Err(TypeError)
  }

  /** `aioexecute` as the function the executor schedules. */
  function Executing(fn: Call -> Result<Value>): seq<Value> -> Result<Value> {
    elems => Execute(fn, elems)
  }

  /** How `aioexecute` treats the values an entry spreads into. */
  lemma ExecuteCases(fn: Call -> Result<Value>, elems: seq<Value>)
    ensures |elems| > 2 ==> Execute(fn, elems) == Err(TypeError)
    ensures |elems| <= 2 && (forall i :: 0 <= i < |elems| ==> !Truthy(elems[i])) ==>
              Execute(fn, elems) == fn(Call([], map[]))
    ensures forall xs, kw :: elems == [List(xs), Dict(kw)] ==> Execute(fn, elems) == fn(Call(xs, kw))
    ensures forall xs :: elems == [List(xs)] ==> Execute(fn, elems) == fn(Call(xs, map[]))
    ensures |elems| == 2 && Truthy(elems[1]) && !elems[1].Dict? && (elems[0].List? || !Truthy(elems[0])) ==>
              Execute(fn, elems) == Err(TypeError)
  {
    var empty: map<Value, Value> := map[];
    forall xs, kw | elems == [List(xs), Dict(kw)] ensures Execute(fn, elems) == fn(Call(xs, kw)) {
      if xs == [] {
        assert Unpack(List([])) == Ok(xs);
      }
      if kw == empty {
        assert Dict(map[]) == Dict(kw);
      }
    }
    forall xs | elems == [List(xs)] ensures Execute(fn, elems) == fn(Call(xs, map[])) {
      if xs == [] {
        assert Unpack(List([])) == Ok(xs);
      }
    }
  }

  /** An entry the executor turns into a successful call. */
  predicate EntrySucceeds(fn: Call -> Result<Value>, entry: Value) {
    Unpack(entry).Ok? && Execute(fn, Unpack(entry).value).Ok?
  }

  /** The batch succeeds exactly when `max_async_pool` is positive,
      `max_futures != 0` and, for a positive `max_futures`, every entry can
      be spread and its call succeeds. */
  lemma AioUtilsOkIff(fn: Call -> Result<Value>, argsList: seq<Value>, pool: int, m: int, orders: Orders)
    requires ValidOrders(orders, |argsList|, m)
    ensures RunPooled(Unpack, Executing(fn), argsList, pool, m, orders).Ok? <==>
            pool > 0 && m != 0 && (m < 0 || forall k :: 0 <= k < |argsList| ==> EntrySucceeds(fn, argsList[k]))
  {
    PooledOkIff(Unpack, Executing(fn), argsList, pool, m, orders);
  }

  /** The loop's invariant: the whole batch is the results gathered so far
      followed by the chunks from entry `index` (chunk number `c`) on. */
  ghost predicate Progress(fn: Call -> Result<Value>, argsList: seq<Value>, m: int, orders: Orders,
                           whole: Result<seq<Value>>, results: seq<Value>, index: nat, c: nat)
  {
    m > 0 && whole == Prepend(results, RunFrom(Unpack, Executing(fn), argsList, index, m, orders, c))
  }

  /** The object `aioloop(fn, args_list, ...)` builds before it runs. */
  class AioLoop {
    const call: Call -> Result<Value>
    const argsList: seq<Value>
    var loop: Option<EventLoop>
    const maxAsyncPool: int
    const maxFutures: int
    const disableProgressBar: bool
    const progressBarColor: string

    /** `__init__`: keeps a supplied loop, otherwise uses the new loop
        `created` (the result of `asyncio.new_event_loop()`). */
    constructor (fn: Call -> Result<Value>, argsList: seq<Value>, loop: Option<EventLoop>, created: EventLoop,
                 maxAsyncPool: int, maxFutures: int, disableProgressBar: bool, progressBarColor: string)
      ensures call == fn && this.argsList == argsList
      ensures this.loop == Some(if loop.Some? then loop.value else created)
      ensures this.maxAsyncPool == maxAsyncPool && this.maxFutures == maxFutures
      ensures this.disableProgressBar == disableProgressBar && this.progressBarColor == progressBarColor
    {
      call := fn;
      this.argsList := argsList;
      this.loop := if loop.Some? then loop else Some(created);
      this.maxAsyncPool := maxAsyncPool;
      this.maxFutures := maxFutures;
      this.disableProgressBar := disableProgressBar;
      this.progressBarColor := progressBarColor;
    }

    /** `__exit__` forgets the loop and nothing else. */
    method Exit()
      modifies this
      ensures loop == None
    {
      loop := None;
    }

    /** One chunk of `aioexecutor`: spread the entries from `index` into
        tasks, in order, then await them in completion order `orders(c)`. */
    method ExecuteChunk(orders: Orders, ghost whole: Result<seq<Value>>, ghost results: seq<Value>,
                        index: nat, c: nat) returns (out: Result<seq<Value>>)
      requires index < |argsList|
      requires Progress(call, argsList, maxFutures, orders, whole, results, index, c)
      ensures out.Err? ==> whole == Err(out.error)
      ensures out.Ok? ==> Progress(call, argsList, maxFutures, orders, whole, results + out.value,
                                   index + maxFutures, c + 1)
    {
      var chunk := argsList[index..Min(index + maxFutures, |argsList|)];
      var tasks := PrepareAll(Unpack, chunk);
      if tasks.Err? {
        return Err(tasks.error);
      }
      out := Collect(Tasks(Executing(call), tasks.value), orders(c));
      if out.Ok? {
        PrependAssoc(results, out.value, RunFrom(Unpack, Executing(call), argsList, index + maxFutures, maxFutures, orders, c + 1));
      }
    }

    /** `aioexecutor`, for a positive `max_futures`: the chunks in order, the
        results of each appended as they complete. */
    method ExecuteAll(orders: Orders, ghost whole: Result<seq<Value>>) returns (r: Result<seq<Value>>)
      requires maxFutures > 0
      requires whole == RunBatch(Unpack, Executing(call), argsList, maxFutures, orders)
      ensures r == whole
    {
      var results: seq<Value> := [];
      var index := 0;
      var c := 0;
      assert whole.Ok? ==> [] + whole.value == whole.value;
      while index < |argsList|
        invariant Progress(call, argsList, maxFutures, orders, whole, results, index, c)
        decreases |argsList| - index
      {
        var out := ExecuteChunk(orders, whole, results, index, c);
        if out.Err? {
          return Err(out.error);
        }
        results := results + out.value;
        index := index + maxFutures;
        c := c + 1;
      }
      assert results + [] == results;
      return Ok(results);
    }

    /** The coroutine `aioexecutor` over the completion orders `orders`:
        `ThreadPoolExecutor(max_workers=max_async_pool)` raises ValueError
        for a size that is not positive; then `range` raises ValueError for
        `max_futures == 0` and is empty for a negative one. */
    method Executor(orders: Orders) returns (r: Result<seq<Value>>)
      ensures r == RunPooled(Unpack, Executing(call), argsList, maxAsyncPool, maxFutures, orders)
    {
      if maxAsyncPool <= 0 {
        return Err(ValueError);
      }
      if maxFutures == 0 {
        return Err(ValueError);
      }
      if maxFutures < 0 {
        return Ok([]);
      }
      r := ExecuteAll(orders, RunBatch(Unpack, Executing(call), argsList, maxFutures, orders));
    }

    /** `run`: the executor on the object's loop; after `__exit__` there is
        no loop and `None.run_until_complete` raises AttributeError. */
    method Run(orders: Orders) returns (r: Result<seq<Value>>)
      ensures loop.None? ==> r == Err(AttributeError)
      ensures loop.Some? ==> r == RunPooled(Unpack, Executing(call), argsList, maxAsyncPool, maxFutures, orders)
    {
      if loop.None? {
        return Err(AttributeError);
      }
      r := Executor(orders);
    }
  }

  /** `aioloop(...)` itself (`__new__`): builds the object, runs it and
      returns the list of results, never the object. */
  method Launch(fn: Call -> Result<Value>, argsList: seq<Value>, loop: Option<EventLoop>, created: EventLoop,
                maxAsyncPool: int, maxFutures: int, disableProgressBar: bool, progressBarColor: string,
                orders: Orders) returns (r: Result<seq<Value>>)
    ensures r == RunPooled(Unpack, Executing(fn), argsList, maxAsyncPool, maxFutures, orders)
  {
    var instance := new AioLoop(fn, argsList, loop, created, maxAsyncPool, maxFutures, disableProgressBar, progressBarColor);
    r := instance.Run(orders);
  }
}
