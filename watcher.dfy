/**
 * The watcher's match-and-sweep logic: which transactions spend a watched output,
 * and one scan of the mempool that fetches every transaction not seen recently,
 * dumps the ones that match, marks every one of them seen in the expiring cache,
 * and finally sweeps the cache.
 *
 * The node's RPC interface is not modelled: the mempool listing is a parameter
 * (`None` when the listing call failed) and fetching a transaction's detail is a
 * function `fetch` from txid to `Option<Tx>` (`None` when the call failed).
 * Writing a dump file is modelled by appending the record to `dumps`.
 */
module OutputWatcher {
  import opened Wrappers
  import opened WatchList
  import opened ExpiringCache

  /** One entry of a transaction's `vin` list: the previous output it spends. A coinbase input carries neither field. */
  datatype TxInput = TxInput(txid: Option<string>, vout: Option<int>)

  /**
   * A verbose `getrawtransaction` record, reduced to what the watcher reads:
   * its own id and its `vin` list, which may be absent. The id only names the dump
   * file, which is not modelled; it is kept so that the records of two different
   * transactions with the same inputs stay distinct in the dumps.
   */
  datatype Tx = Tx(txid: Option<string>, vin: Option<seq<TxInput>>)

  /** The inputs the match scans: `tx.get("vin", [])`. */
  function Inputs(tx: Tx): seq<TxInput> {
    if tx.vin.Some? then tx.vin.value else []
  }

  /** An input that carries both `txid` and `vout`, and the output they name is watched. */
  predicate SpendsWatched(input: TxInput, watched: set<Outpoint>) {
    input.txid.Some? && input.vout.Some? && (input.txid.value, input.vout.value) in watched
  }

  /** The position of the first input that spends a watched output: where the scan of the inputs returns. */
  function FirstWatchedSpend(inputs: seq<TxInput>, watched: set<Outpoint>): (r: Option<nat>)
    ensures r.Some? ==> r.value < |inputs| && SpendsWatched(inputs[r.value], watched)
    ensures r.Some? ==> forall j :: 0 <= j < r.value ==> !SpendsWatched(inputs[j], watched)
    ensures r.None? ==> forall j :: 0 <= j < |inputs| ==> !SpendsWatched(inputs[j], watched)
  {
    if inputs == [] then None
    else if SpendsWatched(inputs[0], watched) then Some(0)
    else
      match FirstWatchedSpend(inputs[1..], watched)
      case None => None
      case Some(i) => Some(i + 1)
  }

  /** Whether `tx` spends a watched output: true exactly when one of its inputs does. */
  function TxSpendsWatchedOutputs(tx: Tx, watched: set<Outpoint>): (r: bool)
    ensures r <==> exists i :: 0 <= i < |Inputs(tx)| && SpendsWatched(Inputs(tx)[i], watched)
  {
    FirstWatchedSpend(Inputs(tx), watched).Some?
  }

  /** A transaction without inputs, or whose inputs all lack `txid` or `vout` (coinbase style), never matches. */
  lemma CoinbaseNeverMatches(tx: Tx, watched: set<Outpoint>)
    requires forall i :: 0 <= i < |Inputs(tx)| ==> Inputs(tx)[i].txid.None? || Inputs(tx)[i].vout.None?
    ensures !TxSpendsWatchedOutputs(tx, watched)
  {
  }

  /** Inputs `[(A, 0), (B, 1)]` match a watch-list holding `(A, 0)`, and neither one holding only `(A, 1)` nor one holding only `(B, 0)`. */
  lemma MatchExample(a: string, b: string)
    requires a != b
    ensures var tx := Tx(None, Some([TxInput(Some(a), Some(0)), TxInput(Some(b), Some(1))]));
            && TxSpendsWatchedOutputs(tx, {(a, 0)})
            && !TxSpendsWatchedOutputs(tx, {(a, 1)})
            && !TxSpendsWatchedOutputs(tx, {(b, 0)})
  {
    var tx := Tx(None, Some([TxInput(Some(a), Some(0)), TxInput(Some(b), Some(1))]));
    assert SpendsWatched(Inputs(tx)[0], {(a, 0)});
  }

  /** What one scan has done so far: the cache's store, the txids fetched and the records dumped, in order. */
  datatype Trace = Trace(store: map<string, Entry<bool>>, fetched: seq<string>, dumps: seq<Tx>)

  /** One iteration of the scan, for `txid`, all at instant `now`. */
  function ScanStep(t: Trace, txid: string, now: int, ttl: int,
                    watched: set<Outpoint>, fetch: string -> Option<Tx>): Trace
  {
    if Live(t.store, txid, now) then t  // already seen: skipped
    else
      var raw := fetch(txid);
      var matched := raw.Some? && TxSpendsWatchedOutputs(raw.value, watched);
      // the membership test dropped the stale entry; the txid is then marked seen in every case
      Trace((t.store - {txid})[txid := Entry(true, now + ttl)],
            t.fetched + [txid],
            if matched then t.dumps + [raw.value] else t.dumps)
  }

  /** The loop of one scan over the listed txids, before the final sweep. */
  function Scan(store: map<string, Entry<bool>>, txids: seq<string>, now: int, ttl: int,
                watched: set<Outpoint>, fetch: string -> Option<Tx>): Trace
    decreases |txids|
  {
    if txids == [] then Trace(store, [], [])
    else ScanStep(Scan(store, txids[..|txids| - 1], now, ttl, watched, fetch),
                  txids[|txids| - 1], now, ttl, watched, fetch)
  }

  /** Scanning one more txid is one more step. */
  lemma ScanSnoc(store: map<string, Entry<bool>>, txids: seq<string>, txid: string, now: int, ttl: int,
                 watched: set<Outpoint>, fetch: string -> Option<Tx>)
    ensures Scan(store, txids + [txid], now, ttl, watched, fetch)
         == ScanStep(Scan(store, txids, now, ttl, watched, fetch), txid, now, ttl, watched, fetch)
  {
    assert (txids + [txid])[..|txids|] == txids;
  }

  /** A trace whose fetch log and dumps follow what was logged and dumped before. */
  function Shift(t: Trace, fetched0: seq<string>, dumps0: seq<Tx>): Trace {
    Trace(t.store, fetched0 + t.fetched, dumps0 + t.dumps)
  }

  /** A step does not depend on what was fetched and dumped before it. */
  lemma ScanStepShift(t: Trace, fetched0: seq<string>, dumps0: seq<Tx>, txid: string, now: int, ttl: int,
                      watched: set<Outpoint>, fetch: string -> Option<Tx>)
    ensures ScanStep(Shift(t, fetched0, dumps0), txid, now, ttl, watched, fetch)
         == Shift(ScanStep(t, txid, now, ttl, watched, fetch), fetched0, dumps0)
  {
  }

  /** The entries a scan writes: every listed txid that was not live at the start, marked seen until `now + ttl`. */
  function Marked(store: map<string, Entry<bool>>, txids: seq<string>, now: int, ttl: int): map<string, Entry<bool>> {
    map txid | txid in txids && !Live(store, txid, now) :: Entry(true, now + ttl)
  }

  /** The records dumped for the fetched txids, in order: a fetched transaction that matches, and nothing for a failed fetch. */
  function DumpsOf(fetched: seq<string>, watched: set<Outpoint>, fetch: string -> Option<Tx>): (r: seq<Tx>)
    ensures |r| <= |fetched|
    ensures forall tx :: tx in r <==>
      exists i :: 0 <= i < |fetched| && fetch(fetched[i]) == Some(tx) && TxSpendsWatchedOutputs(tx, watched)
  {
    if fetched == [] then []
    else
      var before := fetched[..|fetched| - 1];
      var last := fetched[|fetched| - 1];
      var rest := DumpsOf(before, watched, fetch);
      var raw := fetch(last);
      assert forall i :: 0 <= i < |before| ==> fetched[i] == before[i];
      if raw.Some? && TxSpendsWatchedOutputs(raw.value, watched) then rest + [raw.value] else rest
  }

  /** What one step does to the store: nothing for a live txid, otherwise it marks the txid seen until `now + ttl`. */
  lemma ScanStepStore(t: Trace, txid: string, now: int, ttl: int, watched: set<Outpoint>, fetch: string -> Option<Tx>)
    ensures ScanStep(t, txid, now, ttl, watched, fetch).store
         == if Live(t.store, txid, now) then t.store else t.store[txid := Entry(true, now + ttl)]
  {
    if !Live(t.store, txid, now) {
      assert (t.store - {txid})[txid := Entry(true, now + ttl)] == t.store[txid := Entry(true, now + ttl)];
    }
  }

  /** Marking one more listed txid, in the same way as a step does. */
  lemma MarkedSnoc(store: map<string, Entry<bool>>, txids: seq<string>, txid: string, now: int, ttl: int)
    ensures var mid := store + Marked(store, txids, now, ttl);
            store + Marked(store, txids + [txid], now, ttl) ==
              if Live(mid, txid, now) then mid else mid[txid := Entry(true, now + ttl)]
  {
    var m := Marked(store, txids, now, ttl);
    var m' := Marked(store, txids + [txid], now, ttl);
    var mid := store + m;
    assert forall k :: k in m' <==> k in m || (k == txid && !Live(store, txid, now));
    if Live(mid, txid, now) {
      assert m' == m;
    } else {
      assert m' == m[txid := Entry(true, now + ttl)];
    }
  }

  /** The store after the scan loop, in closed form: the old store overwritten by the marked entries. */
  lemma {:induction false} ScanStore(store: map<string, Entry<bool>>, txids: seq<string>, now: int, ttl: int,
                                     watched: set<Outpoint>, fetch: string -> Option<Tx>)
    ensures Scan(store, txids, now, ttl, watched, fetch).store == store + Marked(store, txids, now, ttl)
  {
    if txids != [] {
      var before := txids[..|txids| - 1];
      var x := txids[|txids| - 1];
      assert txids == before + [x];
      ScanStore(store, before, now, ttl, watched, fetch);
      ScanSnoc(store, before, x, now, ttl, watched, fetch);
      ScanStepStore(Scan(store, before, now, ttl, watched, fetch), x, now, ttl, watched, fetch);
      MarkedSnoc(store, before, x, now, ttl);
    }
  }

  /** With a non-negative time-to-live, a txid is live after the scan loop exactly when it was listed or was live before. */
  lemma ScanLive(store: map<string, Entry<bool>>, txids: seq<string>, now: int, ttl: int,
                 watched: set<Outpoint>, fetch: string -> Option<Tx>, txid: string)
    requires ttl >= 0
    ensures Live(Scan(store, txids, now, ttl, watched, fetch).store, txid, now) <==>
            txid in txids || Live(store, txid, now)
  {
    ScanStore(store, txids, now, ttl, watched, fetch);
  }

  /**
   * With a non-negative time-to-live, the scan fetches exactly the listed txids that
   * were not live at its start, each once, even when the listing repeats it.
   */
  lemma {:induction false} ScanFetched(store: map<string, Entry<bool>>, txids: seq<string>, now: int, ttl: int,
                                       watched: set<Outpoint>, fetch: string -> Option<Tx>)
    requires ttl >= 0
    ensures var fetched := Scan(store, txids, now, ttl, watched, fetch).fetched;
            && (forall txid :: txid in fetched <==> txid in txids && !Live(store, txid, now))
            && (forall i, j :: 0 <= i < j < |fetched| ==> fetched[i] != fetched[j])
  {
    if txids != [] {
      var before := txids[..|txids| - 1];
      var x := txids[|txids| - 1];
      assert txids == before + [x];
      ScanFetched(store, before, now, ttl, watched, fetch);
      ScanLive(store, before, now, ttl, watched, fetch, x);
    }
  }

  /** The records the scan dumps are those of the fetched transactions that match, in fetch order. */
  lemma {:induction false} ScanDumps(store: map<string, Entry<bool>>, txids: seq<string>, now: int, ttl: int,
                                     watched: set<Outpoint>, fetch: string -> Option<Tx>)
    ensures var t := Scan(store, txids, now, ttl, watched, fetch);
            t.dumps == DumpsOf(t.fetched, watched, fetch)
  {
    if txids != [] {
      var before := txids[..|txids| - 1];
      ScanDumps(store, before, now, ttl, watched, fetch);
      var t := Scan(store, before, now, ttl, watched, fetch);
      var x := txids[|txids| - 1];
      if !Live(t.store, x, now) {
        assert (t.fetched + [x])[..|t.fetched|] == t.fetched;
      }
    }
  }

  /**
   * Which txids the scan fetches, and what it leaves in the cache, do not depend on
   * what the fetches return: a failed fetch does not stop or alter the rest of the scan.
   */
  lemma {:induction false} ScanIgnoresFetchOutcome(store: map<string, Entry<bool>>, txids: seq<string>, now: int,
                                                   ttl: int, watched: set<Outpoint>,
                                                   fetch1: string -> Option<Tx>, fetch2: string -> Option<Tx>)
    ensures Scan(store, txids, now, ttl, watched, fetch1).store == Scan(store, txids, now, ttl, watched, fetch2).store
    ensures Scan(store, txids, now, ttl, watched, fetch1).fetched == Scan(store, txids, now, ttl, watched, fetch2).fetched
  {
    if txids != [] {
      ScanIgnoresFetchOutcome(store, txids[..|txids| - 1], now, ttl, watched, fetch1, fetch2);
    }
  }

  /** With a non-negative time-to-live, every listed txid is still in the cache after the closing sweep. */
  lemma CycleCachesAllListed(store: map<string, Entry<bool>>, txids: seq<string>, now: int, ttl: int,
                             watched: set<Outpoint>, fetch: string -> Option<Tx>, txid: string)
    requires ttl >= 0 && txid in txids
    ensures Live(Sweep(Scan(store, txids, now, ttl, watched, fetch).store, now), txid, now)
  {
    ScanLive(store, txids, now, ttl, watched, fetch, txid);
  }

  /**
   * Across two consecutive scans with the same non-negative time-to-live, a txid
   * fetched by the first and listed again by the second is fetched again exactly when
   * the second scan runs after the entry the first one wrote has expired.
   */
  lemma CycleDedup(store: map<string, Entry<bool>>, txids1: seq<string>, now1: int,
                   txids2: seq<string>, now2: int, ttl: int,
                   watched1: set<Outpoint>, watched2: set<Outpoint>,
                   fetch1: string -> Option<Tx>, fetch2: string -> Option<Tx>, txid: string)
    requires ttl >= 0
    requires txid in Scan(store, txids1, now1, ttl, watched1, fetch1).fetched
    requires txid in txids2
    ensures var store1 := Sweep(Scan(store, txids1, now1, ttl, watched1, fetch1).store, now1);
            txid in Scan(store1, txids2, now2, ttl, watched2, fetch2).fetched <==> now2 > now1 + ttl
  {
    var s1 := Scan(store, txids1, now1, ttl, watched1, fetch1).store;
    ScanFetched(store, txids1, now1, ttl, watched1, fetch1);
    ScanStore(store, txids1, now1, ttl, watched1, fetch1);
    assert s1[txid] == Entry(true, now1 + ttl);
    var store1 := Sweep(s1, now1);
    ScanFetched(store1, txids2, now2, ttl, watched2, fetch2);
  }

  /**
   * The end-to-end case: the watch-list names `(abc123, 0)`, the mempool lists `txA`
   * and `txB`, `txA` spends that output and `txB` spends another one; only `txA` is
   * dumped and both end up in the cache. The same holds when fetching `txB` fails.
   */
  lemma EndToEndScenario(now: int, ttl: int, failB: bool)
    requires ttl >= 0
    ensures
      var txA := Tx(Some("txA"), Some([TxInput(Some("abc123"), Some(0))]));
      var txB := Tx(Some("txB"), Some([TxInput(Some("def456"), Some(2))]));
      var fetch := (id: string) => if id == "txA" then Some(txA) else if id == "txB" && !failB then Some(txB) else None;
      var t := Scan(map[], ["txA", "txB"], now, ttl, {("abc123", 0)}, fetch);
      && t.dumps == [txA]
      && Live(Sweep(t.store, now), "txA", now)
      && Live(Sweep(t.store, now), "txB", now)
  {
    var txA := Tx(Some("txA"), Some([TxInput(Some("abc123"), Some(0))]));
    var txB := Tx(Some("txB"), Some([TxInput(Some("def456"), Some(2))]));
    var fetch := (id: string) => if id == "txA" then Some(txA) else if id == "txB" && !failB then Some(txB) else None;
    var ids := ["txA", "txB"];
    assert ids[..1] == ["txA"] && ids[..1][..0] == [];
    assert SpendsWatched(Inputs(txA)[0], {("abc123", 0)});
    assert !TxSpendsWatchedOutputs(txB, {("abc123", 0)});
    CycleCachesAllListed(map[], ids, now, ttl, {("abc123", 0)}, fetch, "txA");
    CycleCachesAllListed(map[], ids, now, ttl, {("abc123", 0)}, fetch, "txB");
  }

  /** The watcher: its cache of seen txids, the current watch-list, and what it has dumped. */
  class Watcher {
    var cache: Cache<string, bool>
    var watchedOutputs: set<Outpoint>
    /** The dump sink: every record written, in order. */
    var dumps: seq<Tx>
    /** Every txid whose detail was requested, in order. */
    ghost var fetches: seq<string>

    /** A watcher with an empty cache whose entries live `cacheTtl` seconds, watching `watchedOutputs` as loaded at start-up. */
    constructor (watchedOutputs: set<Outpoint>, cacheTtl: int := 3600)
      ensures fresh(cache) && cache.store == map[] && cache.defaultTtl == cacheTtl
      ensures this.watchedOutputs == watchedOutputs && dumps == [] && fetches == []
    {
      cache := new Cache(cacheTtl);
      this.watchedOutputs := watchedOutputs;
      dumps := [];
      fetches := [];
    }

    /** Replaces the watch-list with a freshly loaded one; a load that fails leaves the old one in place. */
    method ReloadWatchedOutputs(lines: seq<string>) returns (r: Result<(), LoadError>)
      modifies this`watchedOutputs
      ensures var loaded := LoadWatchedOutputs(lines);
              && (loaded.Ok? ==> r.Ok? && watchedOutputs == loaded.value)
              && (loaded.Err? ==> r == Err(loaded.error) && watchedOutputs == old(watchedOutputs))
    {
      var loaded := LoadWatchedOutputs(lines);
      if loaded.Err? {
        return Err(loaded.error);
      }
      watchedOutputs := loaded.value;
      r := Ok(());
    }

    /**
     * One iteration of the scan for `txid`: skipped when it is live in the cache;
     * otherwise fetched, dumped if it matches, and marked seen with the default time-to-live.
     */
    method ScanTxid(txid: string, fetch: string -> Option<Tx>, now: int)
      modifies this`dumps, this`fetches, cache`store
      ensures Trace(cache.store, fetches, dumps)
           == ScanStep(Trace(old(cache.store), old(fetches), old(dumps)), txid, now, cache.defaultTtl, watchedOutputs, fetch)
    {
      var seen := cache.Contains(txid, now);
      if seen {
        return;
      }
      fetches := fetches + [txid];
      var raw := fetch(txid);
      if raw.Some? && TxSpendsWatchedOutputs(raw.value, watchedOutputs) {
        dumps := dumps + [raw.value];
      }
      cache.Set(txid, true, None, now);
    }

    /**
     * One scan of the mempool at instant `now`: every listed txid not live in the
     * cache is fetched, dumped if it matches, and marked seen with the default
     * time-to-live; then the cache is swept. A failed listing changes nothing.
     */
    method ProcessMempool(listing: Option<seq<string>>, fetch: string -> Option<Tx>, now: int)
      modifies this`dumps, this`fetches, cache`store
      ensures listing.None? ==> cache.store == old(cache.store) && dumps == old(dumps) && fetches == old(fetches)
      ensures listing.Some? ==>
        var t := Scan(old(cache.store), listing.value, now, cache.defaultTtl, watchedOutputs, fetch);
        && cache.store == Sweep(t.store, now)
        && fetches == old(fetches) + t.fetched
        && dumps == old(dumps) + t.dumps
    {
      if listing.None? {
        return;
      }
      var txids := listing.value;
      ghost var store0, fetches0, dumps0 := cache.store, fetches, dumps;
      ghost var ttl, watched := cache.defaultTtl, watchedOutputs;
      for i := 0 to |txids|
        invariant cache.defaultTtl == ttl && watchedOutputs == watched
        invariant Trace(cache.store, fetches, dumps)
               == Shift(Scan(store0, txids[..i], now, ttl, watched, fetch), fetches0, dumps0)
      {
        ghost var t := Scan(store0, txids[..i], now, ttl, watched, fetch);
        assert txids[..i + 1] == txids[..i] + [txids[i]];
        ScanSnoc(store0, txids[..i], txids[i], now, ttl, watched, fetch);
        ScanStepShift(t, fetches0, dumps0, txids[i], now, ttl, watched, fetch);
        ScanTxid(txids[i], fetch, now);
      }
      assert txids[..|txids|] == txids;
      cache.Cleanup(now);
    }
  }
}
