# modutils in Dafny

`modutils` is a Python grab-bag of helpers. This project models its core
logic and proves properties about it. The core covers:

- **Batch execution.** `aio.aioloop`, the class `aioutils.aioloop` and the
  decorator `aiobulk` (in `decorators.py` and again in `aio.py`) cut an
  argument list into chunks of `max_futures` entries. They turn each entry
  into a call and collect the results chunk by chunk, in the order the calls
  finish.
- **HTTP sessions.** `BaseSession` in `http.py` and `sessionutils.py`
  builds its list of accepted status codes. It retries a request until the
  status is accepted or the retries run out, then logs the final response.
  Also covered are `BaseAsyncSession`'s pool defaults and single-attempt
  verbs, and `urlscraper`'s plain-text filter.
- **Type helpers.** These are the `sha256` value type and `nget`, a nested
  dictionary lookup.
- **Print helpers.** `response_to_str` and the text `echo` prints.
- **Package helpers.** The `pip3` command lines, the parsing of
  `pip3 freeze` output, and `has_package`.
- **Import helpers.** `globpath`.

`__init__.py` repeats `sha256`, `nget`, `response_to_str`, the package
helpers and `globpath` word for word. Each is modelled once, as is
`aiobulk`.

Python values are a datatype, `PyValues.Value`. `None`, booleans, integers,
strings, lists, tuples and dicts are modelled. A dict is a `map`, so its key
order is not modelled. `str`/`repr` are therefore partial: they are `None`
exactly for values that hold a dict.

Raised exceptions are `Base.Result` errors. Things outside the program are
parameters:

- The decorated `function` is a `Call -> Result<Value>` (positional and
  keyword arguments to value or exception).
- A request is a `nat -> Response` (the response of the k-th call).
- The order in which `asyncio.as_completed` hands back a chunk's futures is
  an oracle `Orders = nat -> seq<nat>`. For chunk `c`, it gives the positions
  of the chunk's entries in completion order. The lemmas that relate results
  to tasks require these orders to be permutations (`Batching.ValidOrders`).

Modules follow the source files:

| file | module | source |
|---|---|---|
| base.dfy | Base | `Option`, `Result`, the exceptions |
| text.dfy | Text | `str.split`, `join`, `in`, `startswith`, `replace`, `lower` on ASCII letters, integer formatting |
| pyvalues.dfy | PyValues | Python values, truthiness, hashability, `str`/`repr` |
| batching.dfy | Batching | the chunked plan shared by both executors |
| aio.dfy | Aio | `aio.aioloop`, including the in-place normalisation of entries |
| aioutils.dfy | AioUtils | the class `aioutils.aioloop` |
| decorators.dfy | Decorators | the class `aiobulk` |
| sessions.dfy | Sessions | `BaseSession`, `BaseAsyncSession`, `urlscraper` |
| typeutils.dfy | TypeUtils | `sha256`, `nget` |
| stdutils.dfy | StdUtils | `response_to_str`, `echo` |
| packages.dfy | PackageUtils | `install_package`, `update_package`, `list_packages`, `has_package` |
| importutils.dfy | ImportUtils | `globpath` |

## Model

| member | source | states |
|---|---|---|
| Batching.CollectSpec | modutils/aio.py:49-52 | Awaiting a chunk's futures in completion order succeeds iff every awaited task succeeds. Each result is then the value of the task at that position. On failure, the error is that of the first failing task in completion order. |
| Batching.CollectPermutation | modutils/aio.py:49-52 | Over a real completion order, gathering succeeds iff all tasks succeed. The gathered results are then a permutation (as multisets) of each task's value. |
| Batching.SelectPermutation | modutils/aio.py:49-52 | Reading a sequence in the order of a permutation keeps every element with its multiplicity. |
| Batching.PrepareAllSpec | modutils/aio.py:43-48 | Turning a chunk's entries into calls succeeds iff each entry can be turned into one. The calls then come in entry order. |
| Batching.ChunkOutcome | modutils/aio.py:42-52 | One chunk succeeds iff all its tasks do. Its results are then a permutation of each task's value, and exactly those values in order when the chunk completes in submission order. |
| Batching.TasksOkSplit | modutils/aio.py:41-43 | The tasks from entry `i` on succeed iff those of two consecutive parts do, and their values are the parts' values concatenated. |
| Batching.RunFromOk | modutils/aio.py:41-53 | The chunks `args_list[i:i+m]`, `args_list[i+m:i+2m]`, ... succeed iff every task from entry `i` on succeeds. They then give one result per entry: a permutation of those tasks' values. |
| Batching.RunFromChunk | modutils/aio.py:49-53 | All results of the chunk at `i` come before any result of the chunks after it. |
| Batching.RunFromInOrder | modutils/aio.py:41-53 | When every chunk completes in submission order, the results are each task's value in entry order. |
| Batching.PooledOkIff | modutils/aio.py:40-41 | `ThreadPoolExecutor(max_workers=pool)` comes first: the run succeeds iff `pool > 0`, `m != 0` and, for `m > 0`, every entry's task succeeds. A pool size that is not positive, or `m == 0`, raises ValueError. |
| Batching.BatchOkIff | modutils/aio.py:41 | `range(0, n, m)`: the batch succeeds iff `m != 0` and, for `m > 0`, every entry's task succeeds. A negative `m` gives no chunks. |
| Batching.BatchResults | modutils/aio.py:41-53 | On success with `m > 0`, there is one result per entry, and the results are a permutation of each task's value. |
| Batching.BatchInOrder | modutils/aio.py:41-53 | With in-order completion, the results are each task's value in entry order. |
| Batching.OneChunk | modutils/aio.py:41-43 | A non-empty batch of at most `m` entries is exactly one chunk. |
| Aio.NormaliseCases | modutils/aio.py:44-47 | Normalising one entry succeeds iff no element but the last is a dict. A dict in last place becomes the keyword arguments and the other elements stay positional, in order. Otherwise, because the index range is fixed at the original length, IndexError is raised after a dict was popped from the caller's list. |
| Aio.NormUnpopped | modutils/aio.py:45-47 | Shows how the loop over the fixed index range behaves from any index, on a list nothing has been popped from. |
| Aio.NormaliseRemovesDicts | modutils/aio.py:47 | The caller's list afterwards has lost only dicts: its multiset of elements shrinks by dicts alone. |
| Aio.LeadingDictRaises | modutils/aio.py:45-47 | `[{'a': 1}, 2]` raises IndexError. |
| Aio.ArgList.Normalise | modutils/aio.py:44-47 | The loop pops each dict it inspects out of this list and merges it into the keyword arguments. It leaves the list as the reference run says, and returns the call or IndexError of `Aio.Normalised`. |
| Aio.NormaliseEntry | modutils/aio.py:43-47 | Normalising one entry of the batch changes that list object's contents and no other list's. |
| Aio.PrepareChunk | modutils/aio.py:43-48 | Builds the calls of entries `i .. j-1` in order, leaving the lists as `Aio.PrepareRange` says. Two entries may be the same list object. |
| Aio.PrepareRangeFrame | modutils/aio.py:43-48 | A list object that is none of the entries normalised keeps its contents. |
| Aio.ExecuteChunk | modutils/aio.py:42-52 | One chunk: normalise its entries, call `function` on each, and append the results in completion order. This keeps the loop invariant that the whole batch's outcome is the results so far followed by the rest. |
| Aio.ExecuteAll | modutils/aio.py:41-53 | The chunk loop returns what the batch specification `Aio.AioAt` yields and leaves the lists as it says. |
| Aio.AioLoop | modutils/aio.py:16-61 | `aioloop(function, args_list, max_async_pool=p, max_futures=m)` returns `Aio.AioSpec`'s result and leaves the caller's lists in `Aio.AioSpec`'s state, for every `p` and `m`. A `p` that is not positive raises ValueError before any list is touched. |
| Aio.PrepareRangePure | modutils/aio.py:43-48 | With distinct list objects, normalising a range of entries is normalising each entry's own contents. |
| Aio.AioAtPure | modutils/aio.py:41-53 | With distinct list objects, the chunks from entry `i` on compute the pure batch plan over the lists' contents. |
| Aio.AioPure | modutils/aio.py:16-61 | With distinct list objects, `aioloop` is `Batching.RunPooled` over the lists' contents, so every Batching lemma applies to it. |
| Aio.AioOkIff | modutils/aio.py:40-53 | Over distinct lists, `aioloop` succeeds iff `max_async_pool > 0`, `max_futures != 0` and, for a positive one, every entry has a dict only in last place and `function` succeeds on its call. |
| Aio.AioEdgeCases | modutils/aio.py:40-41 | A `max_async_pool` that is not positive raises ValueError whatever the other arguments, even for an empty `args_list`. With a positive pool, `max_futures == 0` raises ValueError and a negative one returns `[]`, all before any list is touched; an empty `args_list` returns `[]`. |
| Aio.AliasedEntry | modutils/aio.py:43-48 | The same list object twice in one chunk: the first normalisation pops its dict, so the second call gets no keyword arguments. |
| AioUtils.ExecuteCases | modutils/aioutils.py:69-79 | Covers how an entry spread into `aioexecute(args, kwargs)` behaves. More than two values is a binding TypeError. Falsy or absent values become `[]` and `{}`. `[xs, kw]` calls `function(*xs, **kw)`. A truthy non-dict keyword value raises TypeError. |
| AioUtils.AioUtilsOkIff | modutils/aioutils.py:88-98 | The batch succeeds iff `max_async_pool > 0`, `max_futures != 0` and, for a positive one, every entry spreads into a successful `aioexecute` call. |
| AioUtils.AioLoop.constructor | modutils/aioutils.py:40-62 | `__init__` stores its arguments and keeps the supplied loop, or takes the new one. |
| AioUtils.AioLoop.Exit | modutils/aioutils.py:65-66 | `__exit__` sets `loop` to None and changes nothing else. |
| AioUtils.AioLoop.ExecuteChunk | modutils/aioutils.py:90-97 | One chunk: spread its entries into tasks, then append their results in completion order. This keeps the loop invariant. |
| AioUtils.AioLoop.ExecuteAll | modutils/aioutils.py:89-98 | The chunk loop returns `Batching.RunBatch` of the entries spread into `aioexecute`. |
| AioUtils.AioLoop.Executor | modutils/aioutils.py:82-98 | `aioexecutor` returns `Batching.RunPooled` for every pool size and `max_futures`: ValueError for a pool that is not positive or for `max_futures == 0`, `[]` for a negative `max_futures`. |
| AioUtils.AioLoop.Run | modutils/aioutils.py:101-106 | `run` is the executor on the object's loop, with its stored pool size and `max_futures`. After `__exit__` it raises AttributeError. |
| AioUtils.Launch | modutils/aioutils.py:18-37 | Calling the class returns the list of results of `run()`, never an instance: `Batching.RunPooled` of the entries with the given pool size. |
| Decorators.PrefixLists | modutils/decorators.py:75-76 | The bound `bulk` builds one fresh, distinct list per entry, holding the instance followed by that entry's elements. |
| Decorators.PrefixedCall | modutils/decorators.py:75-76 | Putting an instance that is not a dict in front of an entry normalises to `function(self, *args, **kwargs)` of that entry's own call, or to its error. |
| Decorators.BoundBulk | modutils/decorators.py:75-79 | Bound, with a positive `max_futures`, `bulk` succeeds iff the pool size is positive and `function(self, *entry)` succeeds for every entry. It then gives one result per entry, a permutation of those calls' values. |
| Decorators.AioBulk.constructor | modutils/decorators.py:8-22 | A fresh decorator is unbound, and calling it calls the function with the same arguments. |
| Decorators.AioBulk.Get | modutils/decorators.py:24-34 | `__get__` returns the decorator object itself. An instance other than None replaces the binding, after which `__call__` prepends that instance. None keeps the earlier binding. |
| Decorators.AioBulk.Bulk | modutils/decorators.py:36-79 | Unbound, the caller's own lists go to `aioloop` and are changed as `Aio.AioSpec` says. Bound, new lists `[self] + args` are run, the caller's lists are left as they were, and the result is `Batching.RunPooled` over the prefixed entries with the given pool size. |
| Decorators.SharedBinding | modutils/decorators.py:24-34 | Fetching the method through a second instance rebinds the handle fetched through the first. Both handles are one object, and both call with the second instance. |
| Decorators.AioBulk.BindTo | modutils/decorators.py:24-34 | `__get__` as intended: a new binding per instance, with the decorator left as it was. |
| Decorators.SeparateBindings | modutils/decorators.py:24-34 | With a binding per access, two handles keep their own instances. |
| Decorators.AddPairs | modutils/decorators.py:51-60 | The docstring's `add` succeeds on every pair of integers, giving their sum. |
| Decorators.DocstringExample | modutils/decorators.py:58-60 | `add.bulk` over the 25 pairs `[[x, y] for x in range(0, 5) for y in range(5, 10)]` returns 25 results: the 25 sums in completion order. |
| Sessions.ClientErrorCodes | modutils/sessionutils.py:29 | The `http.py` defaults are 13 codes and `sessionutils.py`'s are the 10 2xx ones. 400, 401 and 404 are accepted only by the former. |
| Sessions.IntElemsMembership | modutils/http.py:46-49 | A code comes from the extra list iff some element of the list is that int. A bool counts as 1 or 0, as `isinstance(True, int)` holds. |
| Sessions.CollectCodes | modutils/http.py:43-49 | The accepted list is the flavour's defaults followed by the extra codes: an int appends itself, a list its int elements in order, anything else nothing. |
| Sessions.SplitCount | modutils/http.py:66 | `url.split('/')` has one more field than the url has slashes. |
| Sessions.ThirdField | modutils/http.py:66 | `split('/')[2]` is the text after the second slash, up to the next slash or the end. |
| Sessions.LogResponseSpec | modutils/http.py:63-70 | `log_response` raises IndexError iff the url has fewer than two slashes. Otherwise it logs one line, with the verb, path, status, content size and user agent, looked up under `user-agent` (default "Unknown"). It adds an error line with the response text iff the status is at least 300 and `verbose` is set. |
| Sessions.HeaderIgnoresCase | modutils/http.py:68 | Two spellings of a header name that differ only in letter case find the same value, and a value set under one is found under the other. |
| Sessions.LogResponseAddress | modutils/http.py:66 | The logged scheme is the text before the first `://`, and the logged host is the text after the second `/`, up to the next one. |
| Sessions.AttemptsSpec | modutils/http.py:83-87 | `request` is called at least once and at most `max_retries + 1` times, and exactly once when `max_retries <= 0`. Every status but the last was refused. The loop stops early only at an accepted status, so a refused final status means all `max_retries + 1` calls were made. |
| Sessions.OneAttempt | modutils/sessionutils.py:69-73 | A single call is made iff retrying is off or the first status is accepted. |
| Sessions.BaseSession.constructor | modutils/http.py:25-49 | `__init__` stores the retry count and verbosity and builds the accepted list with `Sessions.CollectCodes`. |
| Sessions.BaseSession.SessionRequest | modutils/http.py:72-89 | The retry loop makes exactly `Sessions.Attempts` calls (at least one). It logs the last response once and returns it. A url that `log_response` cannot split raises IndexError instead. |
| Sessions.BindSessionSpec | modutils/http.py:25-26 | Binding `BaseSession(*args, **kwargs)` raises TypeError iff there are more than six positional arguments, an unknown keyword, or a parameter given both ways. Otherwise the positional values fill the first parameters, each keyword lands on its parameter, and the rest take their defaults. |
| Sessions.BindDefaults | modutils/http.py:25-26 | `BaseSession()` binds the defaults `3, 16, 16, None, False, None`. |
| Sessions.BindPositionalOrKeyword | modutils/http.py:25-26 | Passing a value as the next positional argument binds exactly what passing it by that parameter's keyword binds. |
| Sessions.AsyncPositionalPoolRaises | modutils/http.py:166-170 | As written, `BaseAsyncSession(3, 16)` raises TypeError although `BaseSession(3, 16)` binds. |
| Sessions.AsyncBindOk | modutils/http.py:166-170 | With the intended defaults, `BaseAsyncSession(...)` binds iff `BaseSession(...)` does. |
| Sessions.AsyncBindValues | modutils/http.py:166-170 | With the intended defaults, the values are those `BaseSession(...)` gets, except that a pool size the caller gave neither by keyword nor by position is 32. |
| Sessions.AsyncVerbSingleAttempt | modutils/http.py:183 | The async verbs never call more often than the resolver. They call as often iff the resolver would not have retried. |
| Sessions.UrlScraper | modutils/http.py:344-352 | `urlscraper` without `regex` goes through a default `BaseSession`, with 3 retries and the 13 default codes. It gives the distinct page strings containing the pattern when the final status is 200, and none otherwise. It raises where the log line does. |
| TypeUtils.Create | modutils/typeutils.py:7-11 | A created `sha256` stores `str(value)` whole; failure is TypeError. |
| TypeUtils.CreateSpec | modutils/typeutils.py:7-11 | `sha256(v)` succeeds iff `str(v)` has a modelled form that starts with 64 hexadecimal digits. |
| TypeUtils.CreateUnanchored | modutils/hashutils.py:6 | The pattern is not anchored at the end: 64 hex digits followed by anything are accepted and stored whole. |
| TypeUtils.HashStrSpec | modutils/typeutils.py:13-14 | `str()` of a sha256 has the stored length and no capital letter. It is itself a valid sha256, and it equals the object. |
| TypeUtils.EqualsSpec | modutils/typeutils.py:16-19 | `==` raises TypeError iff the other operand is not a valid sha256. Otherwise it compares the lower-cased full strings. |
| TypeUtils.EqualsEquivalence | modutils/typeutils.py:16-19 | Between sha256 objects, `==` is symmetric and transitive. |
| TypeUtils.EqualsIgnoresCase | modutils/typeutils.py:16-19 | A string in any ASCII letter case equals the hash it spells. |
| TypeUtils.EqualsRaises | modutils/typeutils.py:16-19 | Comparing with `5` or `None` raises TypeError instead of returning False. |
| TypeUtils.PyEqReflexive | modutils/typeutils.py:42 | The `==` that `nget` uses is reflexive. |
| TypeUtils.NGet | modutils/typeutils.py:21-51 | The `for` loop with its early returns computes `TypeUtils.NestedGet`. |
| TypeUtils.NestedGetErrors | modutils/typeutils.py:30-49 | ValueError iff no key argument is given. A first argument that is not a dict, or keys that are neither a string, list nor tuple, raise TypeError. |
| TypeUtils.WalkErrors | modutils/typeutils.py:40-45 | The walk raises only AttributeError (a step reaching a non-dict) or TypeError (an unhashable key). |
| TypeUtils.CallingStyles | modutils/typeutils.py:33-34 | `nget(d, [k1, ..], default)` and `nget(d, k1, .., default)` agree. |
| TypeUtils.OneKey | modutils/typeutils.py:33-45 | One key: the found value if it is truthy and differs from the default, otherwise the default. A lone string key is the same as that key with default None. |
| TypeUtils.WalkSound | modutils/typeutils.py:40-51 | A successful walk returns the default or the truthy value found at the full path. |
| TypeUtils.WalkFound | modutils/typeutils.py:40-51 | Where the whole path exists and no step meets the default, the walk returns the value found if truthy, else the default. |
| TypeUtils.WalkMissing | modutils/typeutils.py:40-43 | A key missing at some step yields the default. |
| StdUtils.ClassifySpec | modutils/stdutils.py:14-29 | Each `response_to_str` branch is taken exactly for its codes: the 2xx list, 401/403, 404, 400, at least 500, and every other code. |
| StdUtils.OtherCodes | modutils/stdutils.py:29 | 1xx, 3xx, and 4xx codes other than 400, 401, 403 and 404 get the generic description. |
| StdUtils.ResponseToStrSpec | modutils/stdutils.py:14-29 | A success gives the JSON dump of the body, or the raw text when it is not JSON. Every other response starts with its code in parentheses. |
| StdUtils.ResponseDetail | modutils/stdutils.py:19-29 | The permission, not-found and bad-request descriptions end with the url. The server-error and generic ones end with the response text. |
| StdUtils.EchoStrings | modutils/stdutils.py:33-34 | A list of strings is shown joined by the delimiter. When no string holds a one-character delimiter, splitting the shown text at it gives the list back. |
| StdUtils.EchoColor | modutils/stdutils.py:43-44 | A truthy color wraps the text as `fg(color) + text + RESET`. An empty or absent one adds nothing. |
| StdUtils.EchoScalars | modutils/stdutils.py:37-41 | A string is shown as it is, an integer as its decimal digits, and a response as `response_to_str` gives it. |
| PackageUtils.InstallCommand | modutils/packageutils.py:15-21 | Builds the `pip3 install` command step by step, as `PackageUtils.InstallCmd`. |
| PackageUtils.UpdateCommand | modutils/packageutils.py:35 | `update_package` builds `install_package`'s command with `force=True`. |
| PackageUtils.InstallCmdSpec | modutils/packageutils.py:15-21 | The command starts `pip3 install name`. The index pair, then the host pair, are present iff their arguments are truthy. `--upgrade` is there iff forced and is last, and nothing else is added. |
| PackageUtils.UpdateIsForcedInstall | modutils/packageutils.py:35 | The forced command is the unforced one with `--upgrade` appended. |
| PackageUtils.ParsePackagesClean | modutils/packageutils.py:44 | No listed package is empty or holds `\r` or `\n`. |
| PackageUtils.ParseFreeze | modutils/packageutils.py:44 | Parsing `pip3 freeze`'s format gives its lines back: non-empty lines without line breaks, each ended by a newline. |
| PackageUtils.HasPackageVersion | modutils/packageutils.py:54-55 | A falsy version (None, 0, '', False) is ignored. A package found with a version is found without one. |
| PackageUtils.HasPackageLines | modutils/packageutils.py:54-55 | Over freeze output made of given lines, `has_package` holds iff one of those lines contains `name`, or `name==version` for a truthy version. |
| ImportUtils.Mapped | modutils/importutils.py:10 | Every `/` and `\` becomes `.`, and every other character stays in place. |
| ImportUtils.GlobPath | modutils/importutils.py:3-13 | The `while` loop computes `ImportUtils.Glob`: the mapped path without its leading dots, or IndexError when nothing is left. |
| ImportUtils.GlobFails | modutils/importutils.py:11 | `globpath` raises IndexError iff the path consists only of separators and dots, the empty path included. |
| ImportUtils.GlobResult | modutils/importutils.py:10-13 | The result is non-empty and has no separator and no leading dot. It is the mapped path with exactly its leading run of dots removed. |
| ImportUtils.GlobIdempotent | modutils/importutils.py:10-13 | `globpath` is idempotent where it succeeds. |
| Text.SplitJoin | modutils/http.py:66 | Joining the fields of `split(sep)` by `sep` gives the string back. |
| Text.JoinSplit | modutils/stdutils.py:34 | Splitting, at a one-character separator, a join of at least one field that does not hold it gives the fields back. |
| Text.FirstField | modutils/http.py:66 | `split("://")[0]` is a prefix without `://`, followed by `://` when the url contains it. |
| PyValues.PyStr | modutils/stdutils.py:40-41 | `str(v)` is defined iff `v` holds no dict. A string is itself, `None` is `None`, booleans are `True`/`False`, an int is its decimal digits, and a list or tuple is bracketed by `[]` or `()`. |

## Left out

- The thread pool and the asyncio event loop. These are concurrency; which future finishes first is the `Orders` oracle. Of `max_async_pool` only the ValueError a pool size that is not positive raises is modelled (`Batching.RunPooled`); how the cap schedules the calls is not.
- `Batching`: an oracle order that is not a permutation of the chunk is not a real completion order. The executors then return `Unmodelled`, and no lemma speaks about them.
- The progress bar (tqdm), `colored` escape codes and the bar-format strings. These are cosmetic, and `fg`/`RESET` are opaque parameters of `StdUtils.EchoText`.
- The `loop` and progress options of `aioloop`/`bulk`. `AioUtils.AioLoop` stores them, and they are otherwise not modelled. Two of their error paths are therefore missing. A supplied loop that is closed or already running makes `run_until_complete` raise RuntimeError (aio.py:61, aioutils.py:106). A colour name `colored` does not know makes `fg(progress_bar_color)` raise before anything runs. `aioutils.aioloop.__init__` always evaluates it (aioutils.py:61-62); `aio.aioloop` evaluates it only when `progress_bar_format` is None (aio.py:55-57).
- `Aio.AioPure`/`Aio.AioOkIff`: these batch-level lemmas need the entries to be distinct list objects. `Aio.AioSpec` and `Aio.AliasedEntry` cover aliased entries.
- Decorators.BoundBulk: speaks of an instance that is not a dict. A dict instance would itself be popped as keyword arguments by `aioloop`'s normalisation, which `Decorators.AioBulk.Bulk` still models through `Batching.RunPooled`.
- `AioUtils.Unpack`: spreading a dict with `*` depends on key order, so it is `Unmodelled`.
- TypeUtils.HashStrSpec: case folding is modelled for ASCII letters only (`Text.Lower`). Python's `str.lower` also folds other letters and can change the length (`'İ'.lower()` is two code points), so the stored length and the absence of capitals are promised only where the unanchored tail after the 64 hex digits is ASCII.
- TypeUtils.EqualsSpec: compares the strings lower-cased on ASCII letters; where the tail after the 64 hex digits holds non-ASCII letters, Python's Unicode lowering may call two strings equal that the model calls different, and the reverse.
- TypeUtils.EqualsIgnoresCase: letter case means ASCII letter case, for the same reason.
- PyValues.PyStr: a string's `repr` inside a container escapes backslash, the quote, `\n`, `\r`, `\t`, the other characters below a space and 0x7f. Python's `repr` also escapes every other non-printable character (`'\x85'`, `'\xa0'`, `'\u2028'`), which the model leaves as they are.
- Dict key order. Dicts are maps, so the `str`/`repr` of a value holding a dict is not modelled, and neither is `echo` of a list holding one.
- `TypeUtils.PyEq`: `==` on dicts is compared structurally. Python's cross-type equality (`True == 1`) is modelled for ints and bools, but not as a dict key: a lookup of `1` does not find a `True` key.
- The network. The `requests.Session` verbs, `HTTPAdapter`, `HTTPBasicAuth` (`auth`) and mounting are out; a request is the `nat -> Response` oracle.
- Logging configuration and timestamps. The logged lines are returned as `Sessions.LogLine` values.
- The verb wrappers of `BaseSession` (`get`, `post`, ...). Each only passes its `requests` call to the resolver, which is `Sessions.BaseSession.SessionRequest`.
- `Email`/`EmailSession`: SMTP connection, login, sending and attachment reads are all I/O.
- `modutils/hashutils.py`: filesystem scanning and `hashlib` digests are I/O. Only its pattern is modelled, as `TypeUtils.HexPrefix`.
- The regex branch of `urlscraper` and BeautifulSoup parsing are foreign libraries. The page's stripped strings are a parameter of `Sessions.UrlScraper`.
- Sessions.UrlScraper: returns the set of matches, not `list(set(...))`'s list, because that list's order is an artefact of hashing.
- `Popen` execution and UTF-8 decoding in the package helpers. Only the command and the parsing of a given output string are modelled.
- `json.dumps` and `response.json()` are opaque: the dump is a total parameter of `StdUtils.EchoText`, so the TypeError `json.dumps` raises for a dict with keys that are not strings, numbers, booleans or None (a tuple key, say) is not modelled, and `StdUtils.Response.json` is the decoded body or `None`.
- Printing, `flush` and `scroll`'s `sleep` are I/O. `echo`'s `indent` only reaches the opaque `dumps`.
- `import_from` depends on `__import__`/`getattr` and the interpreter's module system.
- `setup.py` is packaging metadata.
- The `status_code == None` branch of `response_to_str`. In Python 3, `None >= 500` raises before that branch is reached, and status codes are ints here.
- `sha256`'s `name` attribute, which is a constant label.

## Findings

| source | as written | input that shows it | evidently intended | confidence | as-written member | corrected member |
|---|---|---|---|---|---|---|
| modutils/http.py:166-170 | `BaseAsyncSession.__init__` adds `pool_maxsize=32` and `pool_connections=32` whenever they are not keyword arguments, even when they were passed positionally | `BaseAsyncSession(3, 16)`: `pool_connections` gets two values and the call raises TypeError, although `BaseSession(3, 16)` is accepted (`Sessions.AsyncPositionalPoolRaises`) | a pool size defaults to 32 only when the caller gave it neither way, so `BaseAsyncSession(...)` binds exactly when `BaseSession(...)` does (`Sessions.AsyncBindOk`, `Sessions.AsyncBindValues`) | not executed; high | `Sessions.AsyncBindAsWritten` | `Sessions.AsyncBind` |
| modutils/decorators.py:24-34 | `__get__` stores the instance in the one decorator object shared by the class and returns that object | `fa = a.get; fb = b.get; fa(url)` calls with `b` as `self`: both handles are one object bound to the last instance (`Decorators.SharedBinding`) | each access through an instance gets a binding of its own, and the decorator is left unbound (`Decorators.SeparateBindings`) | not executed; medium | `Decorators.SharedBinding` | `Decorators.AioBulk.BindTo` |
