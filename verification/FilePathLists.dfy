/** `list_space_file_paths`: the file scan behind its time-to-live cache. */
module FilePathLists {
  import opened Basics
  import opened TtlCache
  import opened FileListing

  const MAX_CACHE_ENTRIES := 128

  datatype SpaceKey = SpaceKey(spaceId: int, companionId: int, root: string)

  /** A correct result of scanning these listings with the configured caps. */
  ghost predicate IsScan(list: Listings, files: FileList) {
    exists seen :: Correct(DEFAULT_CAPS, list, files, seen)
  }

  ghost function ScansOf(listings: SpaceKey -> Listings): (SpaceKey, FileList) -> bool {
    (key, files) => IsScan(listings(key), files)
  }

  /** Cached or not, no file list holds a path outside the root. */
  lemma ListsStayInside(list: Listings, reply: string -> Option<seq<RawEntry>>, files: FileList)
    requires Standard(list, reply) && IsScan(list, files)
    ensures forall i :: 0 <= i < |files.files| ==> SafePath(files.files[i].path)
  {
    var seen :| Correct(DEFAULT_CAPS, list, files, seen);
    ScanStaysInside(DEFAULT_CAPS, list, reply, files, seen);
  }

  /** A fresh scan with the configured caps; none when the root cannot be listed. */
  method ScanNow(list: Listings) returns (answer: Option<FileList>)
    ensures answer.None? ==> list("").None?
    ensures answer.Some? ==> IsScan(list, answer.value)
  {
    ghost var seen;
    answer, seen := ScanFilePaths(DEFAULT_CAPS, list);
  }

  class Service {
    const cache: Cache<SpaceKey, FileList>

    constructor ()
      ensures fresh(cache) && cache.Valid() && cache.entries == map[]
    {
      cache := new Cache(MAX_CACHE_ENTRIES);
    }

    /** While the listings of a space stay as `listings` says, every cached list is a correct scan of them. */
    ghost predicate Sound(listings: SpaceKey -> Listings)
      reads cache
    {
      AllGood(cache.entries, ScansOf(listings))
    }

    /**
     Hit or miss, the answer is a correct scan; a refresh always scans. A hit was stored at most the
     lifetime ago. Nothing is cached when the root cannot be listed.
     */
    method List(key: SpaceKey, refresh: bool, now: real, created: real, stored: real,
                ghost listings: SpaceKey -> Listings, list: Listings)
      returns (answer: Option<FileList>, hit: bool)
      requires cache.Valid() && Sound(listings) && listings(key) == list
      modifies cache
      ensures cache.Valid() && Sound(listings)
      ensures hit ==> !refresh && key in old(cache.entries) && IsFresh(old(cache.entries)[key], now)
                      && answer == Some(old(cache.entries)[key].value)
      ensures !hit && answer.None? ==> list("").None?
      ensures !hit && answer.Some? ==> key in cache.entries && cache.entries[key] == Stamped(answer.value, created)
      ensures answer.Some? ==> IsScan(list, answer.value)
    {
      hit := false;
      assert AllGood(FreshOnly(cache.entries, now), ScansOf(listings));
      if !refresh {
        answer := cache.Get(key, now);
        if answer.Some? {
          return answer, true;
        }
      }
      answer := ScanNow(list);
      if answer.Some? {
        ghost var before, good := cache.entries, ScansOf(listings);
        assert good(key, answer.value);
        cache.Store(key, Stamped(answer.value, created), stored);
        StoredKeepsGood(before, cache.entries, key, Stamped(answer.value, created), good);
      }
    }
  }
}
