/** The sequential plan shared by both batch executors (`aio.aioloop` and
    `aioutils.aioloop`): `range(0, len(args_list), max_futures)` cuts the
    argument list into consecutive chunks; every entry of a chunk is turned
    into a task (a failure while doing so is raised at once); then all tasks
    of the chunk are awaited in the order they complete, and the first task
    that fails in that order raises its exception. The completion order of
    each chunk is an oracle: `orders(c)` lists the positions of chunk `c` in
    the order they finish. */
module Batching {
  import opened Base

  function Min(a: int, b: int): int {
    if a <= b then a else b
  }

  function Range(k: nat): (r: seq<nat>)
    ensures |r| == k && forall i :: 0 <= i < k ==> r[i] == i
  {
    seq(k, i requires 0 <= i < k => i)
  }

  /** `p` lists each of the positions `0 .. k-1` exactly once. */
  predicate IsPermutation(p: seq<nat>, k: nat) {
    multiset(p) == multiset(Range(k))
  }

  lemma PermutationBounds(p: seq<nat>, k: nat)
    requires IsPermutation(p, k)
    ensures |p| == k
    ensures forall j :: 0 <= j < |p| ==> p[j] < k
  {
    assert |multiset(p)| == |p|;
    assert |multiset(Range(k))| == k;
    forall j | 0 <= j < |p| ensures p[j] < k {
      assert p[j] in multiset(p);
      assert p[j] in Range(k);
    }
  }

  /** The elements of `xs` at the positions `p`, in that order. */
  function Select<T>(xs: seq<T>, p: seq<nat>): (r: seq<T>)
    requires forall j :: 0 <= j < |p| ==> p[j] < |xs|
    ensures |r| == |p|
  {
    seq(|p|, j requires 0 <= j < |p| => xs[p[j]])
  }

  /** Taking the largest position out of a permutation leaves a permutation
      of the others. */
  lemma RemoveLast(p: seq<nat>, t: nat, k: nat)
    requires IsPermutation(p, k + 1) && t < |p| && p[t] == k
    ensures IsPermutation(p[..t] + p[t + 1..], k)
  {
    var q := p[..t] + p[t + 1..];
    assert p == p[..t] + [k] + p[t + 1..];
    assert multiset(p) == multiset(q) + multiset{k};
    assert Range(k + 1) == Range(k) + [k];
    assert multiset(Range(k + 1)) == multiset(Range(k)) + multiset{k};
    assert multiset(q) == multiset(p) - multiset{k};
    assert multiset(Range(k)) == multiset(Range(k + 1)) - multiset{k};
  }

  /** Reading `xs` in the order `p` is reading its prefix in the order `q`,
      `p` with the last position taken out, with the last element put back
      where that position stood. */
  lemma SelectSplice<T>(xs: seq<T>, p: seq<nat>, t: nat, q: seq<nat>)
    requires |xs| > 0 && t < |p| && p[t] == |xs| - 1
    requires q == p[..t] + p[t + 1..]
    requires forall j :: 0 <= j < |q| ==> q[j] < |xs| - 1
    ensures forall j :: 0 <= j < |p| ==> p[j] < |xs|
    ensures var sq := Select(xs[..|xs| - 1], q);
            Select(xs, p) == sq[..t] + [xs[|xs| - 1]] + sq[t..]
  {
    var k := |xs| - 1;
    assert forall j :: 0 <= j < t ==> q[j] == p[j];
    assert forall j :: t < j < |p| ==> q[j - 1] == p[j];
    var sq := Select(xs[..k], q);
    var sp := Select(xs, p);
    forall j | 0 <= j < |sp| ensures sp[j] == (sq[..t] + [xs[k]] + sq[t..])[j] {
      if j < t {
        assert q[j] == p[j];
      } else if j > t {
        assert q[j - 1] == p[j];
      }
    }
  }

  lemma SelectRemoved<T>(xs: seq<T>, p: seq<nat>, t: nat, q: seq<nat>)
    requires |xs| > 0 && t < |p| && p[t] == |xs| - 1
    requires q == p[..t] + p[t + 1..]
    requires forall j :: 0 <= j < |q| ==> q[j] < |xs| - 1
    ensures forall j :: 0 <= j < |p| ==> p[j] < |xs|
    ensures multiset(Select(xs, p)) == multiset(Select(xs[..|xs| - 1], q)) + multiset{xs[|xs| - 1]}
  {
    SelectSplice(xs, p, t, q);
    var sq := Select(xs[..|xs| - 1], q);
    assert sq == sq[..t] + sq[t..];
  }

  /** Reading a sequence in the order of a permutation keeps its elements
      with their multiplicities. */
  lemma {:induction false} SelectPermutation<T>(xs: seq<T>, p: seq<nat>)
    requires IsPermutation(p, |xs|)
    ensures forall j :: 0 <= j < |p| ==> p[j] < |xs|
    ensures multiset(Select(xs, p)) == multiset(xs)
    decreases |xs|
  {
    PermutationBounds(p, |xs|);
    if |xs| > 0 {
      var k := |xs| - 1;
      PermutationCovers(p, |xs|);
      assert k in p;
      var t :| 0 <= t < |p| && p[t] == k;
      var q := p[..t] + p[t + 1..];
      RemoveLast(p, t, k);
      PermutationBounds(q, k);
      SelectPermutation(xs[..k], q);
      SelectRemoved(xs, p, t, q);
      assert xs == xs[..k] + [xs[k]];
    }
  }

  /** Every position below `k` occurs in a permutation of `0 .. k-1`. */
  lemma PermutationCovers(p: seq<nat>, k: nat)
    requires IsPermutation(p, k)
    ensures forall i :: 0 <= i < k ==> i in p
  {
    forall i | 0 <= i < k ensures i in p {
      assert Range(k)[i] == i;
      assert i in multiset(Range(k));
    }
  }

  /** The completion-order oracle: `orders(c)` lists the positions of chunk
      `c` in the order its tasks finish. */
  type Orders = nat -> seq<nat>

  /** From the chunk starting at entry `i` (chunk number `c`) of a batch of
      `n` entries cut every `m`, each chunk's order is a permutation of its
      positions. */
  predicate ValidFrom(orders: Orders, n: nat, m: int, i: nat, c: nat)
    decreases n - i
  {
    m <= 0 || i >= n ||
    (IsPermutation(orders(c), Min(i + m, n) - i) && ValidFrom(orders, n, m, i + m, c + 1))
  }

  /** A real completion order for a whole batch. */
  predicate ValidOrders(orders: Orders, n: nat, m: int) {
    ValidFrom(orders, n, m, 0, 0)
  }

  /** `[await f for f in as_completed(futures)]`: the outcomes read in
      completion order `p`; the first failure in that order is raised. A
      position outside the chunk cannot come from a real completion order. */
  function Collect<V>(outcomes: seq<Result<V>>, p: seq<nat>): (r: Result<seq<V>>)
    ensures r.Ok? ==> |r.value| == |p|
    decreases |p|
  {
    if p == [] then Ok([])
    else if p[0] >= |outcomes| then Err(Unmodelled)
    else match outcomes[p[0]]
      case Err(e) => Err(e)
      case Ok(v) => Prepend([v], Collect(outcomes, p[1..]))
  }

  /** Gathering succeeds exactly when every awaited task succeeds; it then
      yields the values in completion order, and otherwise raises the error of
      the first failing task in that order. */
  lemma {:induction false} CollectSpec<V>(outcomes: seq<Result<V>>, p: seq<nat>)
    requires forall j :: 0 <= j < |p| ==> p[j] < |outcomes|
    ensures Collect(outcomes, p).Ok? <==> forall j :: 0 <= j < |p| ==> outcomes[p[j]].Ok?
    ensures Collect(outcomes, p).Ok? ==> forall j :: 0 <= j < |p| ==> outcomes[p[j]] == Ok(Collect(outcomes, p).value[j])
    ensures Collect(outcomes, p).Err? ==>
              exists j :: 0 <= j < |p| && outcomes[p[j]] == Err(Collect(outcomes, p).error) &&
                          forall i :: 0 <= i < j ==> outcomes[p[i]].Ok?
    decreases |p|
  {
    if p != [] {
      assert forall j :: 1 <= j < |p| ==> p[j] == p[1..][j - 1];
      CollectSpec(outcomes, p[1..]);
      var rest := Collect(outcomes, p[1..]);
      if outcomes[p[0]].Ok? && rest.Err? {
        var j :| 0 <= j < |p[1..]| && outcomes[p[1..][j]] == Err(rest.error) &&
                 forall i :: 0 <= i < j ==> outcomes[p[1..][i]].Ok?;
        assert outcomes[p[j + 1]] == Err(rest.error);
      }
    }
  }

  predicate AllOk<V>(outcomes: seq<Result<V>>) {
    forall k :: 0 <= k < |outcomes| ==> outcomes[k].Ok?
  }

  function Values<V>(outcomes: seq<Result<V>>): (vs: seq<V>)
    requires AllOk(outcomes)
    ensures |vs| == |outcomes|
  {
    seq(|outcomes|, k requires 0 <= k < |outcomes| => outcomes[k].value)
  }

  /** Awaiting every task of a chunk in completion order succeeds exactly
      when each one succeeds, and then yields the value of each of them,
      each once: a permutation of the outcomes. */
  lemma CollectPermutation<V>(outcomes: seq<Result<V>>, p: seq<nat>)
    requires IsPermutation(p, |outcomes|)
    ensures forall j :: 0 <= j < |p| ==> p[j] < |outcomes|
    ensures Collect(outcomes, p).Ok? <==> AllOk(outcomes)
    ensures Collect(outcomes, p).Ok? ==>
              AllOk(outcomes) && multiset(Collect(outcomes, p).value) == multiset(Values(outcomes))
  {
    PermutationBounds(p, |outcomes|);
    PermutationCovers(p, |outcomes|);
    CollectSpec(outcomes, p);
    var r := Collect(outcomes, p);
    if AllOk(outcomes) {
      var vs := Values(outcomes);
      SelectPermutation(vs, p);
      assert r.value == Select(vs, p);
    } else {
      var k :| 0 <= k < |outcomes| && outcomes[k].Err?;
      assert k in p;
      var j :| 0 <= j < |p| && p[j] == k;
      assert !r.Ok?;
    }
  }

  /** Turning every entry of a chunk into a task, in submission order; the
      first entry that cannot be turned into one raises. */
  function PrepareAll<T, C>(prepare: T -> Result<C>, chunk: seq<T>): (r: Result<seq<C>>)
    ensures r.Ok? ==> |r.value| == |chunk|
    decreases |chunk|
  {
    if chunk == [] then Ok([])
    else match prepare(chunk[0])
      case Err(e) => Err(e)
      case Ok(c) => Prepend([c], PrepareAll(prepare, chunk[1..]))
  }

  /** Preparing succeeds exactly when every entry can be prepared, and then
      yields each entry's task in order. */
  lemma {:induction false} PrepareAllSpec<T, C>(prepare: T -> Result<C>, chunk: seq<T>)
    ensures PrepareAll(prepare, chunk).Ok? <==> forall k :: 0 <= k < |chunk| ==> prepare(chunk[k]).Ok?
    ensures PrepareAll(prepare, chunk).Ok? ==>
              forall k :: 0 <= k < |chunk| ==> prepare(chunk[k]) == Ok(PrepareAll(prepare, chunk).value[k])
    decreases |chunk|
  {
    if chunk != [] {
      assert forall k :: 1 <= k < |chunk| ==> chunk[k] == chunk[1..][k - 1];
      PrepareAllSpec(prepare, chunk[1..]);
    }
  }

  function Tasks<C, V>(exec: C -> Result<V>, calls: seq<C>): (outcomes: seq<Result<V>>)
    ensures |outcomes| == |calls|
  {
    seq(|calls|, k requires 0 <= k < |calls| => exec(calls[k]))
  }

  /** One chunk: prepare every entry, then await every task in completion
      order `p`. */
  function RunChunk<T, C, V>(prepare: T -> Result<C>, exec: C -> Result<V>, chunk: seq<T>, p: seq<nat>): Result<seq<V>> {
    match PrepareAll(prepare, chunk)
    case Err(e) => Err(e)
    case Ok(calls) => Collect(Tasks(exec, calls), p)
  }

  /** The chunks from the one starting at entry `i` (chunk number `c`) on:
      `args_list[i:i+m]`, then the chunk at `i + m`; a failing chunk ends the
      batch. */
  function RunFrom<T, C, V>(prepare: T -> Result<C>, exec: C -> Result<V>,
                            entries: seq<T>, i: nat, m: int, orders: Orders, c: nat): Result<seq<V>>
    requires m > 0
    decreases |entries| - i
  {
    if i >= |entries| then Ok([])
    else match RunChunk(prepare, exec, entries[i..Min(i + m, |entries|)], orders(c))
      case Err(e) => Err(e)
      case Ok(rs) => Prepend(rs, RunFrom(prepare, exec, entries, i + m, m, orders, c + 1))
  }

  /** A whole batch: `range(0, n, m)` raises ValueError for `m == 0`, is empty
      for `m < 0`, and otherwise starts the chunks at entry 0. */
  function RunBatch<T, C, V>(prepare: T -> Result<C>, exec: C -> Result<V>,
                             entries: seq<T>, m: int, orders: Orders): Result<seq<V>>
  {
    if m == 0 then Err(ValueError)
    else if m < 0 then Ok([])
    else RunFrom(prepare, exec, entries, 0, m, orders, 0)
  }

  /** A whole batch run on `ThreadPoolExecutor(max_workers=pool)`: a pool
      size that is not positive raises ValueError when the executor is
      created, before `range` is evaluated and before any entry is read. */
  function RunPooled<T, C, V>(prepare: T -> Result<C>, exec: C -> Result<V>,
                              entries: seq<T>, pool: int, m: int, orders: Orders): Result<seq<V>>
  {
    if pool <= 0 then Err(ValueError) else RunBatch(prepare, exec, entries, m, orders)
  }

  /** What one entry of a batch finally computes, when it can be prepared. */
  function TaskOf<T, C, V>(prepare: T -> Result<C>, exec: C -> Result<V>, e: T): Result<V> {
    match prepare(e)
    case Err(x) => Err(x)
    case Ok(c) => exec(c)
  }

  predicate TasksOk<T, C, V>(prepare: T -> Result<C>, exec: C -> Result<V>, s: seq<T>) {
    forall k :: 0 <= k < |s| ==> TaskOf(prepare, exec, s[k]).Ok?
  }

  /** The values the entries of `s` compute, in the order of `s`. */
  function TaskValues<T, C, V>(prepare: T -> Result<C>, exec: C -> Result<V>, s: seq<T>): (vs: seq<V>)
    requires TasksOk(prepare, exec, s)
    ensures |vs| == |s|
  {
    seq(|s|, k requires 0 <= k < |s| => TaskOf(prepare, exec, s[k]).value)
  }

  lemma TaskValuesAppend<T, C, V>(prepare: T -> Result<C>, exec: C -> Result<V>, a: seq<T>, b: seq<T>)
    requires TasksOk(prepare, exec, a) && TasksOk(prepare, exec, b)
    ensures TasksOk(prepare, exec, a + b)
    ensures TaskValues(prepare, exec, a + b) == TaskValues(prepare, exec, a) + TaskValues(prepare, exec, b)
  {
    assert forall k :: 0 <= k < |a| ==> (a + b)[k] == a[k];
    assert forall k :: |a| <= k < |a| + |b| ==> (a + b)[k] == b[k - |a|];
  }

  /** One chunk succeeds exactly when all its tasks do; it then yields each
      task's value once, in completion order, and in submission order when
      the chunk completes in submission order. */
  lemma ChunkOutcome<T, C, V>(prepare: T -> Result<C>, exec: C -> Result<V>, chunk: seq<T>, p: seq<nat>)
    requires IsPermutation(p, |chunk|)
    ensures RunChunk(prepare, exec, chunk, p).Ok? <==> TasksOk(prepare, exec, chunk)
    ensures RunChunk(prepare, exec, chunk, p).Ok? ==>
              TasksOk(prepare, exec, chunk) &&
              |RunChunk(prepare, exec, chunk, p).value| == |chunk| &&
              multiset(RunChunk(prepare, exec, chunk, p).value) == multiset(TaskValues(prepare, exec, chunk))
    ensures RunChunk(prepare, exec, chunk, p).Ok? && p == Range(|chunk|) ==>
              TasksOk(prepare, exec, chunk) &&
              RunChunk(prepare, exec, chunk, p).value == TaskValues(prepare, exec, chunk)
  {
    PermutationBounds(p, |chunk|);
    PrepareAllSpec(prepare, chunk);
    var prep := PrepareAll(prepare, chunk);
    if prep.Ok? {
      var outcomes := Tasks(exec, prep.value);
      assert forall k :: 0 <= k < |chunk| ==> TaskOf(prepare, exec, chunk[k]) == outcomes[k];
      CollectPermutation(outcomes, p);
      if AllOk(outcomes) {
        assert Values(outcomes) == TaskValues(prepare, exec, chunk);
        if p == Range(|chunk|) {
          CollectSpec(outcomes, p);
          assert Collect(outcomes, p).value == Values(outcomes);
        }
      } else {
        var k :| 0 <= k < |outcomes| && outcomes[k].Err?;
        assert TaskOf(prepare, exec, chunk[k]).Err?;
      }
    } else {
      var k :| 0 <= k < |chunk| && prepare(chunk[k]).Err?;
      assert TaskOf(prepare, exec, chunk[k]).Err?;
    }
  }

  /** The tasks from entry `i` on succeed exactly when those of
      `s[i..j]` and those from `j` on do, and their values are the values of
      the two parts one after the other. */
  lemma TasksOkSplit<T, C, V>(prepare: T -> Result<C>, exec: C -> Result<V>, s: seq<T>, i: nat, j: nat)
    requires i <= j <= |s|
    ensures TasksOk(prepare, exec, s[i..]) <==> TasksOk(prepare, exec, s[i..j]) && TasksOk(prepare, exec, s[j..])
    ensures TasksOk(prepare, exec, s[i..]) ==>
              TaskValues(prepare, exec, s[i..]) == TaskValues(prepare, exec, s[i..j]) + TaskValues(prepare, exec, s[j..])
  {
    assert s[i..] == s[i..j] + s[j..];
    if TasksOk(prepare, exec, s[i..j]) && TasksOk(prepare, exec, s[j..]) {
      TaskValuesAppend(prepare, exec, s[i..j], s[j..]);
    }
    if !TasksOk(prepare, exec, s[i..j]) {
      var k :| 0 <= k < j - i && TaskOf(prepare, exec, s[i..j][k]).Err?;
      assert s[i..j][k] == s[i..][k];
    }
    if !TasksOk(prepare, exec, s[j..]) {
      var k :| 0 <= k < |s| - j && TaskOf(prepare, exec, s[j..][k]).Err?;
      assert s[j..][k] == s[i..][j - i + k];
    }
  }

  /** The chunks from entry `i` on succeed exactly when every task from `i`
      on does; they then yield one result per entry, each task's value
      once. */
  lemma {:induction false} RunFromOk<T, C, V>(prepare: T -> Result<C>, exec: C -> Result<V>,
                                              entries: seq<T>, i: nat, m: int, orders: Orders, c: nat)
    requires m > 0 && i <= |entries| && ValidFrom(orders, |entries|, m, i, c)
    ensures RunFrom(prepare, exec, entries, i, m, orders, c).Ok? <==> TasksOk(prepare, exec, entries[i..])
    ensures RunFrom(prepare, exec, entries, i, m, orders, c).Ok? ==>
              TasksOk(prepare, exec, entries[i..]) &&
              |RunFrom(prepare, exec, entries, i, m, orders, c).value| == |entries| - i &&
              multiset(RunFrom(prepare, exec, entries, i, m, orders, c).value) ==
              multiset(TaskValues(prepare, exec, entries[i..]))
    decreases |entries| - i
  {
    if i < |entries| {
      var j := Min(i + m, |entries|);
      ChunkOutcome(prepare, exec, entries[i..j], orders(c));
      TasksOkSplit(prepare, exec, entries, i, j);
      if i + m <= |entries| {
        RunFromOk(prepare, exec, entries, i + m, m, orders, c + 1);
      } else {
        assert entries[j..] == [];
      }
    }
  }

  /** The results of the chunk at `i` come first, then those of the chunks
      after it: the batch keeps the chunks in order. */
  lemma RunFromChunk<T, C, V>(prepare: T -> Result<C>, exec: C -> Result<V>,
                              entries: seq<T>, i: nat, m: int, orders: Orders, c: nat)
    requires m > 0 && i < |entries| && ValidFrom(orders, |entries|, m, i, c)
    requires RunFrom(prepare, exec, entries, i, m, orders, c).Ok?
    ensures var k := Min(i + m, |entries|) - i;
            var r := RunFrom(prepare, exec, entries, i, m, orders, c).value;
            k <= |r| && TasksOk(prepare, exec, entries[i..i + k]) &&
            multiset(r[..k]) == multiset(TaskValues(prepare, exec, entries[i..i + k])) &&
            RunFrom(prepare, exec, entries, i + m, m, orders, c + 1).Ok? &&
            r[k..] == RunFrom(prepare, exec, entries, i + m, m, orders, c + 1).value
  {
    var j := Min(i + m, |entries|);
    ChunkOutcome(prepare, exec, entries[i..j], orders(c));
  }

  /** Each chunk completes in submission order. */
  predicate InOrderFrom(orders: Orders, n: nat, m: int, i: nat, c: nat)
    decreases n - i
  {
    m <= 0 || i >= n ||
    (orders(c) == Range(Min(i + m, n) - i) && InOrderFrom(orders, n, m, i + m, c + 1))
  }

  /** When every chunk completes in submission order, the results are the
      tasks' values in the order of the entries. */
  lemma {:induction false} RunFromInOrder<T, C, V>(prepare: T -> Result<C>, exec: C -> Result<V>,
                                                   entries: seq<T>, i: nat, m: int, orders: Orders, c: nat)
    requires m > 0 && i <= |entries| && InOrderFrom(orders, |entries|, m, i, c)
    ensures ValidFrom(orders, |entries|, m, i, c)
    ensures RunFrom(prepare, exec, entries, i, m, orders, c).Ok? ==>
              TasksOk(prepare, exec, entries[i..]) &&
              RunFrom(prepare, exec, entries, i, m, orders, c).value == TaskValues(prepare, exec, entries[i..])
    decreases |entries| - i
  {
    if i < |entries| {
      var j := Min(i + m, |entries|);
      ChunkOutcome(prepare, exec, entries[i..j], orders(c));
      TasksOkSplit(prepare, exec, entries, i, j);
      if i + m <= |entries| {
        RunFromInOrder(prepare, exec, entries, i + m, m, orders, c + 1);
      } else {
        assert entries[j..] == [];
      }
    }
  }

  /** A batch succeeds exactly when `m != 0` and, for `m > 0`, every entry
      can be turned into a task and its task succeeds. */
  lemma BatchOkIff<T, C, V>(prepare: T -> Result<C>, exec: C -> Result<V>,
                            entries: seq<T>, m: int, orders: Orders)
    requires ValidOrders(orders, |entries|, m)
    ensures RunBatch(prepare, exec, entries, m, orders).Ok? <==>
            m != 0 && (m < 0 || TasksOk(prepare, exec, entries))
  {
    if m > 0 {
      RunFromOk(prepare, exec, entries, 0, m, orders, 0);
      assert entries[0..] == entries;
    }
  }

  /** On a pool, the batch succeeds exactly when the pool size is positive,
      `m != 0` and, for `m > 0`, every entry's task succeeds; both
      failures that come before any task are ValueError. */
  lemma PooledOkIff<T, C, V>(prepare: T -> Result<C>, exec: C -> Result<V>,
                             entries: seq<T>, pool: int, m: int, orders: Orders)
    requires ValidOrders(orders, |entries|, m)
    ensures RunPooled(prepare, exec, entries, pool, m, orders).Ok? <==>
            pool > 0 && m != 0 && (m < 0 || TasksOk(prepare, exec, entries))
    ensures pool <= 0 || m == 0 ==> RunPooled(prepare, exec, entries, pool, m, orders) == Err(ValueError)
  {
    BatchOkIff(prepare, exec, entries, m, orders);
  }

  /** On success with `m > 0` the batch yields one result per entry, and its
      results are each task's value, each once. */
  lemma BatchResults<T, C, V>(prepare: T -> Result<C>, exec: C -> Result<V>,
                              entries: seq<T>, m: int, orders: Orders)
    requires m > 0 && ValidOrders(orders, |entries|, m)
    requires RunBatch(prepare, exec, entries, m, orders).Ok?
    ensures TasksOk(prepare, exec, entries)
    ensures |RunBatch(prepare, exec, entries, m, orders).value| == |entries|
    ensures multiset(RunBatch(prepare, exec, entries, m, orders).value) == multiset(TaskValues(prepare, exec, entries))
  {
    RunFromOk(prepare, exec, entries, 0, m, orders, 0);
    assert entries[0..] == entries;
  }

  /** With each chunk completing in submission order, the results are the
      tasks' values in the order of the entries. */
  lemma BatchInOrder<T, C, V>(prepare: T -> Result<C>, exec: C -> Result<V>,
                              entries: seq<T>, m: int, orders: Orders)
    requires m > 0 && InOrderFrom(orders, |entries|, m, 0, 0)
    requires RunBatch(prepare, exec, entries, m, orders).Ok?
    ensures TasksOk(prepare, exec, entries)
    ensures RunBatch(prepare, exec, entries, m, orders).value == TaskValues(prepare, exec, entries)
  {
    RunFromInOrder(prepare, exec, entries, 0, m, orders, 0);
    assert entries[0..] == entries;
  }

  /** A batch no longer than `m` is a single chunk. */
  lemma OneChunk<T, C, V>(prepare: T -> Result<C>, exec: C -> Result<V>,
                          entries: seq<T>, m: int, orders: Orders)
    requires 0 < |entries| <= m
    ensures RunBatch(prepare, exec, entries, m, orders) == RunChunk(prepare, exec, entries, orders(0))
  {
    assert entries[0..Min(m, |entries|)] == entries;
    assert RunFrom(prepare, exec, entries, m, m, orders, 1) == Ok([]);
    var r := RunChunk(prepare, exec, entries, orders(0));
    assert r.Ok? ==> r.value + [] == r.value;
  }
}
