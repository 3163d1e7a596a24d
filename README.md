# Bitcoin mempool output watcher — Dafny model

The watcher polls a Bitcoin Core node. It looks for unconfirmed transactions that spend
any output on an operator-supplied watch-list, and writes each matching transaction to
disk. This project models the two parts of it that hold real logic and proves
properties of them:

- **the expiring cache** (`src/Cache.py`): a dictionary from key to `(value, expiry)`.
  An expired entry is dropped when a read finds it. `cleanup` sweeps out all expired
  entries at once. Size and iteration sweep first. This becomes the class
  `ExpiringCache.Cache` over a `map<K, Entry<V>>` field.
- **match and sweep** (`src/BtcOutputWatcher.py`):
  - the input-matching predicate;
  - the watch-list line parser;
  - one scan of the mempool (`_process_mempool`), in the class `OutputWatcher.Watcher`.

The scan is proved against a pure specification, `OutputWatcher.Scan`. Lemmas then
characterise what the scan fetches, dumps and caches.

Modules, one file each:

| file | module | models |
|---|---|---|
| `wrappers.dfy` | `Wrappers` | `Option`, `Result` |
| `text.dfy` | `Text` | the parts of Python's `str.strip()`, `str.split(",")` and `int()` that the loader uses |
| `watch_list.dfy` | `WatchList` | parsing the watch-list lines |
| `cache.dfy` | `ExpiringCache` | the cache class and its sweep specification |
| `watcher.dfy` | `OutputWatcher` | transaction matching, the scan specification and the `Watcher` class |

Every operation that reads the clock takes it as an integer `now` parameter. Four behaviours
of the code that a reader might not expect:

- **Expiry boundary.** An entry is still live at exactly its expiry instant: it is
  live while `now <= expiry` (`src/Cache.py:74` tests `time.time() > expiry`). So a key
  set with TTL `t` at time `s` is still present at `s + t`, and a sweep keeps entries
  whose expiry equals `now`.
- **Failed fetch.** A txid whose fetch fails is still marked seen (`cache.set` at
  `src/BtcOutputWatcher.py:84` is outside the `try`).
- **Deleting a missing key.** This raises `KeyError` (`src/Cache.py:118`). The model
  returns `Err(KeyError)`.
- **`get`.** It never raises, even though its docstring says it can.

## Model

| member | source | states |
|---|---|---|
| `ExpiringCache.Cache.constructor` | src/Cache.py:14-16 | a new cache has an empty store and the given default TTL (60 when none is given) |
| `ExpiringCache.Cache.IsExpired` | src/Cache.py:61-74 | a key is expired exactly when the sweep at `now` would not keep it; a key that is not expired is stored with `now <= expiry` |
| `ExpiringCache.Cache.Cleanup` | src/Cache.py:20-26 | removing the collected expired keys one by one leaves exactly `Sweep(old store, now)`: all live entries, unchanged |
| `ExpiringCache.Cache.Set` | src/Cache.py:28-38 | the key now maps to `(value, now + ttl)`, or `now + default_ttl` when `ttl` is None; it replaces any earlier value and expiry; every other key is unchanged |
| `ExpiringCache.Cache.Get` | src/Cache.py:40-57 | a live key returns `Some(value)` and leaves the store unchanged; otherwise it returns `default`, which is `None` (Python's `None`) unless given, and the key is removed |
| `ExpiringCache.Cache.Lookup` | src/Cache.py:78-95 | a live key returns its value and leaves the store unchanged; otherwise it gives `KeyError` and the key is removed |
| `ExpiringCache.Cache.Put` | src/Cache.py:97-106 | the key now maps to `(value, now + default_ttl)`; every other key is unchanged |
| `ExpiringCache.Cache.Delete` | src/Cache.py:108-118 | the key is removed even if it has expired; the result is `KeyError` exactly when the key was not stored |
| `ExpiringCache.Cache.Keys` | src/Cache.py:120-128 | sweeps, then yields exactly the keys that were live at `now` |
| `ExpiringCache.Cache.Count` | src/Cache.py:130-138 | sweeps, then returns the number of keys live at `now`, which is never more than the size before |
| `ExpiringCache.Cache.Contains` | src/Cache.py:140-153 | true exactly when the key is stored with `now <= expiry`; when false, the key is gone and nothing else changed |
| `ExpiringCache.SweepLeavesOnlyLive` | src/Cache.py:20-26 | after a sweep, every remaining entry has `expiry >= now`, and no key was added |
| `ExpiringCache.SweepKeepsLive` | src/Cache.py:20-26 | every entry live before the sweep is still present with the same value and expiry |
| `ExpiringCache.SweepIdempotent` | src/Cache.py:20-26 | sweeping again at the same `now` changes nothing |
| `ExpiringCache.SweepLater` | src/Cache.py:20-26 | a sweep at an earlier instant followed by one at a later instant equals the later sweep alone |
| `ExpiringCache.SweepSize` | src/Cache.py:130-138 | the swept store's keys are exactly the live keys, and there are no more of them than stored keys |
| `ExpiringCache.LiveAfterSet` | src/Cache.py:28-38 | a key written at `now` with TTL `ttl` is live at a later instant exactly when that instant is `<= now + ttl` |
| `Text.StripLeft` | src/BtcOutputWatcher.py:101-102 | removes the longest whitespace prefix, and nothing more |
| `Text.StripRight` | src/BtcOutputWatcher.py:101-102 | removes the longest whitespace suffix, and nothing more |
| `Text.StripTrailingSpace` | src/BtcOutputWatcher.py:100-102 | a line terminator does not change the stripped line |
| `Text.Split` | src/BtcOutputWatcher.py:102 | at least one field; no field contains the separator; joining the fields with the separator gives the input back |
| `Text.SplitJoin` | src/BtcOutputWatcher.py:102 | splitting undoes joining when no piece contains the separator |
| `Text.Strip` | src/BtcOutputWatcher.py:101-102 | `StripRight(StripLeft(s))`: the result is a slice of `s` with only whitespace cut from either end, has no whitespace at either end, and is empty exactly when `s` is all whitespace |
| `Text.IntTrim` | src/BtcOutputWatcher.py:103 | the text `int()` reads once it skips the whitespace around a number (ASCII ` \t\n\v\f\r` and non-ASCII `str.isspace()` characters, not U+001C..U+001F): a slice of the input with only such whitespace cut from either end, none left at either end, empty exactly when the input is all such whitespace |
| `Text.ParseInt` | src/BtcOutputWatcher.py:103 | `int(s)` over the grammar listed under "## Left out"; `None` stands for `ValueError`. Blank text is rejected. A result comes only from trimmed text made of digits and underscores, after at most one leading sign, and ending in a digit, so `1.5`, `0x10`, `1e3` and `--5` are rejected. A negative result needs a leading `-`, and a plain run of digits reads as its decimal value. `Text.ParseShow` is its partner |
| `Text.ParseShow` | src/BtcOutputWatcher.py:103 | `int(str(i)) == i` for every integer, with no limit on the number of digits (see `Text.ParseInt` under "## Left out") |
| `WatchList.ParseLine` | src/BtcOutputWatcher.py:101-103 | a line is skipped exactly when it is blank after stripping |
| `WatchList.Collect` | src/BtcOutputWatcher.py:98-104 | the fold succeeds exactly when every line did; its set holds exactly the pairs named; otherwise the first failing line's error is returned |
| `WatchList.ParseLinesAt` | src/BtcOutputWatcher.py:100-103 | the lines are parsed one by one in file order: outcome `i` is the parse of line `i` |
| `WatchList.LoadWatchedOutputs` | src/BtcOutputWatcher.py:98-104 | the load succeeds exactly when every line's outcome is `Ok`, and then holds exactly the `(field0, int(field1))` pairs of the non-blank lines; otherwise it fails with the first bad line's error |
| `WatchList.MalformedLineFailsLoad` | src/BtcOutputWatcher.py:102-103 | a non-blank line with other than two fields, or with a non-integer index, makes the whole load fail |
| `WatchList.SeparatorIndexRejected` | src/BtcOutputWatcher.py:103 | `int()` rejects an index field that starts with one of U+001C..U+001F, which `str.strip()` removes but `int()` does not skip |
| `WatchList.SeparatorBeforeIndexFails` | src/BtcOutputWatcher.py:100-103 | the line `abc,\x1c0` survives `strip()` and `split(",")` with the U+001C intact, so `int()` raises and the whole load fails |
| `WatchList.BlankLineIgnored` | src/BtcOutputWatcher.py:101 | inserting a blank line anywhere leaves the load result unchanged, errors included |
| `WatchList.ParseFormatLine` | src/BtcOutputWatcher.py:101-103 | a `txid,index` line with its terminator parses back to `(txid, index)` |
| `WatchList.LoadFormat` | src/BtcOutputWatcher.py:98-104 | loading a file that lists pairs one per line gives back exactly the set of those pairs |
| `OutputWatcher.FirstWatchedSpend` | src/BtcOutputWatcher.py:150-155 | the scan of the inputs returns at the first input that names a watched `(txid, vout)`; no earlier input does; `None` when no input does |
| `OutputWatcher.TxSpendsWatchedOutputs` | src/BtcOutputWatcher.py:139-156 | true exactly when some input carries both `txid` and `vout` and that pair is watched |
| `OutputWatcher.CoinbaseNeverMatches` | src/BtcOutputWatcher.py:150-156 | a transaction with no `vin`, or whose inputs all lack `txid` or `vout`, never matches |
| `OutputWatcher.MatchExample` | src/BtcOutputWatcher.py:150-155 | inputs `[(A,0),(B,1)]` match a watch-list `{(A,0)}`, and match neither `{(A,1)}` nor `{(B,0)}` |
| `OutputWatcher.DumpsOf` | src/BtcOutputWatcher.py:77-82 | a record is dumped exactly when some fetched txid's fetch succeeded with that record and it matches; never more dumps than fetches |
| `OutputWatcher.ScanStore` | src/BtcOutputWatcher.py:73-84 | after the scan loop the store is the old store, with every listed txid that was not live marked seen until `now + ttl` |
| `OutputWatcher.ScanLive` | src/BtcOutputWatcher.py:73-84 | with `ttl >= 0`, a txid is live after the loop exactly when it was listed or was live before |
| `OutputWatcher.ScanFetched` | src/BtcOutputWatcher.py:73-84 | with `ttl >= 0`, the fetched txids are exactly the listed ones that were not live at the start; none is fetched twice, even when listed twice |
| `OutputWatcher.ScanDumps` | src/BtcOutputWatcher.py:77-82 | the dumped records are those of the fetched transactions that matched, in fetch order |
| `OutputWatcher.ScanIgnoresFetchOutcome` | src/BtcOutputWatcher.py:77-84 | which txids are fetched, and the resulting cache, do not depend on fetch outcomes, so a failed fetch never stops the scan |
| `OutputWatcher.CycleCachesAllListed` | src/BtcOutputWatcher.py:84-86 | with `ttl >= 0`, every listed txid is in the cache after the final sweep, whether its fetch failed, matched or did not match |
| `OutputWatcher.CycleDedup` | src/BtcOutputWatcher.py:73-86 | a txid fetched in one scan and listed in the next is fetched again exactly when the next scan runs after `now1 + ttl` |
| `OutputWatcher.EndToEndScenario` | src/BtcOutputWatcher.py:68-86 | watch-list `(abc123,0)`, mempool `[txA, txB]`: only `txA` is dumped and both are cached, also when fetching `txB` fails |
| `OutputWatcher.Watcher.constructor` | src/BtcOutputWatcher.py:44-46 | a watcher starts with an empty cache whose TTL is `cache_ttl` (3600 by default) and the watch-list loaded at start-up |
| `OutputWatcher.Watcher.ReloadWatchedOutputs` | src/BtcOutputWatcher.py:55 | a successful load replaces the watch-list with the loaded set; a failed load raises and keeps the previous set |
| `OutputWatcher.Watcher.ScanTxid` | src/BtcOutputWatcher.py:73-84 | one pass of the loop body: the cache, fetch log and dumps move exactly as `ScanStep` says, so a live txid is skipped and any other txid is fetched once and then marked seen until `now + ttl` |
| `OutputWatcher.Watcher.ProcessMempool` | src/BtcOutputWatcher.py:68-86 | the cache becomes `Sweep(Scan(...).store, now)`, and the fetch log and dumps grow by exactly what `Scan` fetched and dumped; a failed listing changes nothing, not even by a sweep |

## Left out

- Time: `time.time()` is a float read at each call. The model uses an integer `now`, and a whole mempool scan uses a single instant.
- `_rpc_call`: the HTTP JSON-RPC transport, its authentication and its status check. A listing is an `Option<seq<string>>` parameter. A transaction fetch is a parameter function returning `Option<Tx>`, where `None` stands for any exception raised while fetching.
- `_dump_transaction`: writing the JSON file. A dump is modelled as appending the record to `dumps`. The file name (the record's own `txid`, or `unknown_txid`) and the serialisation are not modelled.
- A dump that raises (an `IOError` inside the same `try`) is not modelled. In the source that txid is still marked seen and its match is lost until the entry expires.
- `_tx_spends_watched_outputs` assumes the record is a dictionary whose inputs are dictionaries. Records of other shapes, and JSON values of other types in `txid` or `vout`, are not modelled.
- `run`: the endless loop, its `print`, `time.sleep` and catch-all are not modelled. In the source, the watch-list reload at `src/BtcOutputWatcher.py:55` sits outside the `try`, so a failed load ends `run`. The model covers the reload only as `Watcher.ReloadWatchedOutputs`.
- Construction: `__init__` stores the RPC settings and the poll interval and creates the dump directory; none of this is modelled. The constructor receives the start-up watch-list already loaded.
- Opening and reading the watch-list file: the loader receives the file's lines.
- Text.ParseInt: the model accepts the whitespace `int()` skips (`Text.IsIntSpace`: the ASCII ` \t\n\v\f\r` and the non-ASCII `str.isspace()` characters, but not U+001C..U+001F) around one optional sign and ASCII digits with single underscores between them. Non-ASCII decimal digits, which Python also accepts, are not modelled.
- Text.ParseInt: Python's limit on the length of a decimal string is not modelled. Since 3.11, and in security releases of 3.7-3.10, `int()` raises `ValueError` on more than 4300 digits by default; the limit can be changed or switched off with `sys.set_int_max_str_digits`. The model parses digit strings of any length.
- Text.ParseShow: states `int(str(i)) == i` for every integer. Under that same limit, Python's `str(i)` itself raises for an `i` of more than 4300 digits.
- `str.strip()`: the whitespace set is Python's `str.isspace()` characters; the model does no Unicode normalisation.
- The `__main__` demo at the end of `src/Cache.py`. It names an undefined `ExpiringCache` class.
- The `MutableMapping` mixin methods the cache inherits (`pop`, `update`, `setdefault`, …): their code is not part of this model.
- `scripts/main.py`: only configuration and a call to `run`.
- Concurrency: the source runs one scan at a time on one thread, and so does the model.
