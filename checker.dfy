/** One checking pass of PageCheck: hash every tracked page, compare the
    fresh digests with the stored ones, notify and save when something
    changed. The checklist file and the notifier are objects whose state the
    pass changes; the hash function is fixed when the checker is made, and
    the pages the network serves are given to each pass anew. */
module Checker {
  import opened Pages
  import opened DiffEngine

  /** The JSON checklist file. `saved` is None when the file is missing or
      cannot be parsed; `writes` counts how often it has been rewritten. */
  class JsonFile {
    var saved: Option<PageMap>
    var writes: nat

    constructor (saved: Option<PageMap>)
      ensures this.saved == saved && writes == 0
    {
      this.saved := saved;
      writes := 0;
    }

    /** Reading the file; fails when there is nothing readable. */
    method Load() returns (r: Result<PageMap>)
      ensures r == if saved.Some? then Ok(saved.value) else Err(FileUnreadable)
    {
      r := if saved.Some? then Ok(saved.value) else Err(FileUnreadable);
    }

    /** Writing the file, replacing its whole content. */
    method Dump(m: PageMap)
      modifies this
      ensures saved == Some(m) && writes == old(writes) + 1
    {
      saved := Some(m);
      writes := writes + 1;
    }
  }

  /** The notification sink. Every call is recorded; whether delivery
      succeeds is up to the transport, so the outcome is left open. */
  class Notifier {
    var calls: seq<PageMap>

    constructor ()
      ensures calls == []
    {
      calls := [];
    }

    method Notify(diff: PageMap) returns (delivered: bool)
      modifies this
      ensures calls == old(calls) + [diff]
    {
      calls := calls + [diff];
      delivered :| true;
    }
  }

  class PageCheck {
    const file: JsonFile
    const notifier: Notifier
    /** The configured hash function, rendered as a hex digest. */
    const hasher: Bytes -> HexDigest

    constructor (file: JsonFile, notifier: Notifier, hasher: Bytes -> HexDigest)
      ensures this.file == file && this.notifier == notifier && this.hasher == hasher
    {
      this.file := file;
      this.notifier := notifier;
      this.hasher := hasher;
    }

    /** The digest of the page `web` serves at `url`: it fails exactly when
        the download fails, naming the URL, and otherwise is a non-empty hex
        string. */
    function GetHash(web: Web, url: Url): (r: Result<HexDigest>)
      ensures r.Ok? <==> web(url).Some?
      ensures r.Err? ==> r.error == FetchFailed(url)
    {
      match web(url)
      case None => Err(FetchFailed(url))
      case Some(page) => Ok(hasher(page))
    }

    /** Every page in `urls` can be downloaded. */
    predicate Reachable(web: Web, urls: set<Url>) {
      forall u :: u in urls ==> GetHash(web, u).Ok?
    }

    /** The checklist of fresh digests for `urls`. */
    ghost function HashDict(web: Web, urls: set<Url>): PageMap
      requires Reachable(web, urls)
    {
      map u | u in urls :: GetHash(web, u).value
    }

    /** What a pass reports for the stored checklist `stored`: the
        differences between the fresh digests and the stored ones. */
    ghost function Changes(web: Web, stored: PageMap): PageMap
      requires Reachable(web, stored.Keys)
    {
      Diff(HashDict(web, stored.Keys), stored)
    }

    /** The notifier calls a pass over `stored` makes: one, with the
        changes, when there are any; none otherwise. */
    ghost function Notified(web: Web, stored: PageMap): seq<PageMap>
      requires Reachable(web, stored.Keys)
    {
      if Changes(web, stored) == map[] then [] else [Changes(web, stored)]
    }

    /** A pass never reports more pages than the checklist tracks. */
    lemma ChangesBounded(web: Web, stored: PageMap)
      requires Reachable(web, stored.Keys)
      ensures |Changes(web, stored)| <= |stored|
      ensures Changes(web, stored).Keys <= stored.Keys
    {
      DiffOfSameKeys(HashDict(web, stored.Keys), stored);
    }

    /** A pass finds no change exactly when the fresh checklist is the stored
        one, so skipping the write loses nothing. */
    lemma NoChangesMeansChecklistCurrent(web: Web, stored: PageMap)
      requires Reachable(web, stored.Keys)
      ensures Changes(web, stored) == map[] <==> HashDict(web, stored.Keys) == stored
    {
      DiffEmptyIffEqual(HashDict(web, stored.Keys), stored);
    }

    /** Hashes each URL in turn. The result maps exactly the given URLs, each
        to its page's digest; the first download that fails ends the loop
        with that URL's failure. */
    method GetHashDict(web: Web, urls: set<Url>) returns (r: Result<PageMap>)
      ensures r.Ok? <==> Reachable(web, urls)
      ensures r.Ok? ==> r.value.Keys == urls && forall u :: u in urls ==> GetHash(web, u).Ok? && GetHash(web, u).value == r.value[u]
      ensures r.Ok? ==> r.value == HashDict(web, urls)
      ensures r.Err? ==> r.error.FetchFailed? && r.error.url in urls && GetHash(web, r.error.url).Err?
    {
      var hashDict: PageMap := map[];
      var todo := urls;
      while todo != {}
        invariant todo <= urls
        invariant hashDict.Keys == urls - todo
        invariant forall u :: u in hashDict ==> GetHash(web, u).Ok? && GetHash(web, u).value == hashDict[u]
        decreases todo
      {
        var url :| url in todo;
        var h := GetHash(web, url);
        if h.Err? {
          return Err(h.error);
        }
        hashDict := hashDict[url := h.value];
        todo := todo - {url};
      }
      assert hashDict.Keys == HashDict(web, urls).Keys;
      return Ok(hashDict);
    }

    /** Walks the union of both key sets and records every URL that is in one
        map only or whose digests differ, taking the digest from `first`
        whenever `first` has the URL. */
    method CompareDicts(first: PageMap, second: PageMap) returns (diff: PageMap)
      ensures diff == Diff(first, second)
    {
      diff := map[];
      var allKeys := first.Keys + second.Keys;
      var todo := allKeys;
      while todo != {}
        invariant todo <= allKeys
        invariant forall k :: k in diff <==> k in Diff(first, second) && k !in todo
        invariant forall k :: k in diff ==> diff[k] == Diff(first, second)[k]
        decreases todo
      {
        var key :| key in todo;
        if key !in second {
          diff := diff[key := first[key]];
        } else if key !in first {
          diff := diff[key := second[key]];
        } else if first[key] != second[key] {
          diff := diff[key := first[key]];
        }
        todo := todo - {key};
      }
    }

    /** One pass over the pages `web` serves now. It loads the checklist,
        hashes every stored URL, compares
        the fresh digests with the stored ones and, only when something
        changed, notifies with the changes and then saves the fresh
        checklist. It returns how many pages changed. After every successful
        pass the file holds the fresh digests. A failure at any step
        ends the pass with nothing saved; the notifier is called before the
        write, so a failing notifier leaves the file untouched. */
    method CheckUpdateFile(web: Web) returns (r: Result<nat>)
      modifies file, notifier
      ensures old(file.saved).None? ==>
        && r == Err(FileUnreadable)
        && file.saved == old(file.saved) && file.writes == old(file.writes)
        && notifier.calls == old(notifier.calls)
      ensures old(file.saved).Some? && !Reachable(web, old(file.saved).value.Keys) ==>
        && r.Err? && r.error.FetchFailed?
        && r.error.url in old(file.saved).value && GetHash(web, r.error.url).Err?
        && file.saved == old(file.saved) && file.writes == old(file.writes)
        && notifier.calls == old(notifier.calls)
      ensures old(file.saved).Some? && Reachable(web, old(file.saved).value.Keys) ==>
        notifier.calls == old(notifier.calls) + Notified(web, old(file.saved).value)
      ensures old(file.saved).Some? && Reachable(web, old(file.saved).value.Keys) ==>
        r == Ok(|Changes(web, old(file.saved).value)|) || (Changes(web, old(file.saved).value) != map[] && r == Err(NotifyFailed))
      ensures old(file.saved).Some? && Reachable(web, old(file.saved).value.Keys) ==>
        if r.Ok? && Changes(web, old(file.saved).value) != map[]
        then file.saved == Some(HashDict(web, old(file.saved).value.Keys)) && file.writes == old(file.writes) + 1
        else file.saved == old(file.saved) && file.writes == old(file.writes)
      ensures old(file.saved).Some? && Reachable(web, old(file.saved).value.Keys) && r.Ok? ==>
        file.saved == Some(HashDict(web, old(file.saved).value.Keys)) && r.value <= |old(file.saved).value|
    {
      var loaded := file.Load();
      if loaded.Err? {
        return Err(loaded.error);
      }
      var oldDict := loaded.value;
      var fetched := GetHashDict(web, oldDict.Keys);
      if fetched.Err? {
        return Err(fetched.error);
      }
      var newDict := fetched.value;
      var diff := CompareDicts(newDict, oldDict);
      assert diff == Changes(web, oldDict);
      ChangesBounded(web, oldDict);
      if diff != map[] {
        var delivered := notifier.Notify(diff);
        if !delivered {
          return Err(NotifyFailed);
        }
        file.Dump(newDict);
      } else {
        NoChangesMeansChecklistCurrent(web, oldDict);
      }
      r := Ok(|diff|);
    }
  }

  /** The hash function of the two clients below: page [1] hashes to "a1",
      every other page to "b2". */
  function ToyHash(page: Bytes): HexDigest {
    if page == [1] then "a1" else "b2"
  }

  /** A client of the pass: a tracked page whose digest is unchanged is not
      reported, the notifier is not called and the file is not rewritten. */
  method UnchangedPageScenario()
  {
    var file := new JsonFile(Some(map["A" := "a1"]));
    var notifier := new Notifier();
    var pc := new PageCheck(file, notifier, ToyHash);
    var web: Web := (u: Url) => Some([1]);
    assert pc.Reachable(web, {"A"});
    assert pc.HashDict(web, {"A"}) == map["A" := "a1"];
    var r := pc.CheckUpdateFile(web);
    assert r == Ok(0);
    assert notifier.calls == [];
    assert file.saved == Some(map["A" := "a1"]) && file.writes == 0;
  }

  /** A client of the pass: the page has changed since the checklist was
      saved, so it is reported once to the notifier; if delivery succeeds
      the fresh digest is saved, and if it fails the file keeps the old
      one. */
  method ChangedPageScenario()
  {
    var file := new JsonFile(Some(map["A" := "a1"]));
    var notifier := new Notifier();
    var pc := new PageCheck(file, notifier, ToyHash);
    var web: Web := (u: Url) => Some([2]);
    ghost var stored := map["A" := "a1"];
    assert pc.Reachable(web, stored.Keys);
    assert pc.HashDict(web, stored.Keys) == map["A" := "b2"];
    assert "b2"[0] != "a1"[0];
    assert Diff(map["A" := "b2"], stored).Keys == {"A"};
    assert pc.Changes(web, stored) == map["A" := "b2"];
    var r := pc.CheckUpdateFile(web);
    assert notifier.calls == [map["A" := "b2"]];
    assert r.Ok? ==> r.value == 1 && file.saved == Some(map["A" := "b2"]) && file.writes == 1;
    assert r.Err? ==> r.error == NotifyFailed && file.saved == Some(map["A" := "a1"]) && file.writes == 0;
  }
}
