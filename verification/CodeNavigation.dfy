/**
 The public code-navigation requests. Each tries the symbol index first; the contracts say when no
 caller can tell, from rows or flag, whether the index, a cached index or a scan answered.
 */
module CodeNavigation {
  import opened Basics
  import opened Workspace
  import opened FileScan
  import opened CombinedScan
  import opened SymbolIndex
  import opened IndexedSearch
  import opened IndexedDefinition
  import opened TtlCache

  const MAX_CACHE_ENTRIES := 64

  /** The cache key. Its fingerprint is taken as the listing itself, that is, as collision-free. */
  datatype IndexKey = IndexKey(view: View, items: seq<PathItem>, cut: bool)

  function KeyOf(ws: Workspace): IndexKey {
    IndexKey(ws.view, WalkFromRoot(ws).items, WalkFromRoot(ws).cut)
  }

  /** The index a fresh build would give for a workspace that can be listed. */
  ghost function CurrentIndex(ws: Workspace): IndexEntry {
    IndexOf(ws, WalkFromRoot(ws).items, WalkFromRoot(ws).cut)
  }

  /** Every file was listed under a path that sanitising leaves alone. */
  ghost predicate WellListed(ws: Workspace) {
    CanonicalItems(ws, WalkFromRoot(ws).items)
  }

  ghost predicate FitsIndex(ws: Workspace) {
    |Gather(ws, WalkFromRoot(ws).items).symbols| <= SYMBOL_CAP
  }

  /**
   A history of the workspace: `history(key)` is what it looked like when its listing gave `key`.
   Requests made while `ws` agrees with it are requests on files unchanged since any cached build.
   */
  type History = IndexKey -> Workspace

  lemma ListedReference(ws: Workspace, q: Query, limit: nat)
    requires !WalkFromRoot(ws).failed
    ensures Reference(ws, q, limit)
         == Success(Answer(Scan(ws, q, None, WalkFromRoot(ws).items), limit, WalkFromRoot(ws).cut))
  {
  }

  class Service {
    const cache: Cache<IndexKey, IndexEntry>

    constructor ()
      ensures fresh(cache) && cache.Valid() && forall history :: Sound(history)
    {
      cache := new Cache(MAX_CACHE_ENTRIES);
    }

    /** Every cached index is the one its key's workspace would be given now. */
    ghost predicate Sound(history: History)
      reads cache
    {
      forall key :: key in cache.entries ==>
        cache.entries[key].value == IndexOf(history(key), key.items, key.cut)
    }

    /** Whether an index for this workspace is cached and has not expired. */
    ghost predicate HasIndex(ws: Workspace, now: real)
      reads cache
    {
      KeyOf(ws) in cache.entries && IsFresh(cache.entries[KeyOf(ws)], now)
    }

    /** `_cached_symbol_index_entry`: the listing, and the cached index for it if there is one. */
    method CachedIndex(ws: Workspace, now: real, ghost history: History)
      returns (listed: Option<Walked>, entry: Option<IndexEntry>)
      requires cache.Valid() && Sound(history) && history(KeyOf(ws)) == ws
      modifies cache
      ensures cache.Valid() && Sound(history)
      ensures listed == if WalkFromRoot(ws).failed then None else Some(WalkFromRoot(ws))
      ensures entry.Some? <==> listed.Some? && old(HasIndex(ws, now))
      ensures entry.Some? ==> entry.value == CurrentIndex(ws)
    {
      ghost var listings;
      listed, listings := ListPaths(ws);
      entry := None;
      if listed.Some? {
        entry := cache.Get(IndexKey(ws.view, listed.value.items, listed.value.cut), now);
      }
    }

    /** `_symbol_index_entry`: a cached index, or a new one, which is then cached. */
    method Index(ws: Workspace, now: real, built: real, stored: real, ghost history: History)
      returns (entry: Option<IndexEntry>)
      requires cache.Valid() && Sound(history) && history(KeyOf(ws)) == ws
      modifies cache
      ensures cache.Valid() && Sound(history)
      ensures entry == if WalkFromRoot(ws).failed then None else Some(CurrentIndex(ws))
    {
      var listed;
      listed, entry := CachedIndex(ws, now, history);
      if listed.Some? && entry.None? {
        var index := BuildSymbolIndex(ws, listed.value.items, listed.value.cut);
        cache.Store(IndexKey(ws.view, listed.value.items, listed.value.cut), Stamped(index, built), stored);
        entry := Some(index);
      }
    }

    /**
     `symbols` and `search` with kind `symbol`: from the index, or by scanning when the workspace
     cannot be listed.
     */
    method Symbols(ws: Workspace, matcher: Matcher, limit: nat, now: real, built: real, stored: real,
                   ghost history: History)
      returns (result: Result)
      requires limit > 0 && cache.Valid() && Sound(history) && history(KeyOf(ws)) == ws
      modifies cache
      ensures cache.Valid() && Sound(history)
      ensures
        var q := Search(SymbolOnly, matcher);
        && (WalkFromRoot(ws).failed ==> result == Reference(ws, q, limit))
        && (WellListed(ws) && FitsIndex(ws) ==> result == Reference(ws, q, limit))
        && (WellListed(ws) && !WalkFromRoot(ws).failed && !FitsIndex(ws) ==>
              result.Success? && result.response.truncated &&
              result.response.rows <= Reference(ws, q, limit).response.rows)
    {
      var q := Search(SymbolOnly, matcher);
      var entry := Index(ws, now, built, stored, history);
      if entry.None? {
        result := ScanFiles(ws, q, limit);
        return;
      }
      var response := AnswerFromIndex(entry.value, q, limit);
      result := Success(response);
      ListedReference(ws, q, limit);
      if WellListed(ws) {
        IndexAnswersLikeScan(ws, q, WalkFromRoot(ws).items, WalkFromRoot(ws).cut, limit);
      }
    }

    /** `search` with kind `all`: an index is used if it is already cached, but never built. */
    method SearchAll(ws: Workspace, matcher: Matcher, limit: nat, now: real, ghost history: History)
      returns (result: Result)
      requires limit > 0 && cache.Valid() && Sound(history) && history(KeyOf(ws)) == ws
      modifies cache
      ensures cache.Valid() && Sound(history)
      ensures
        var q, reference := Search(AllKinds, matcher), Reference(ws, Search(AllKinds, matcher), limit);
        && (WalkFromRoot(ws).failed || !old(HasIndex(ws, now)) ==> result == reference)
        && (WellListed(ws) && !WalkFromRoot(ws).failed && old(HasIndex(ws, now)) && FitsIndex(ws) ==>
              (result == reference <==> NothingTorn(ws, q, WalkFromRoot(ws).items, limit)))
        && (!WalkFromRoot(ws).failed && old(HasIndex(ws, now)) && CurrentIndex(ws).truncated ==>
              result.Success? && result.response.truncated)
    {
      var q := Search(AllKinds, matcher);
      var listed, entry := CachedIndex(ws, now, history);
      if listed.Some? {
        ListedReference(ws, q, limit);
      }
      if entry.None? {
        result := SearchScan(ws, q, limit, listed, None, false);
        return;
      }
      var offered := AnswerFromIndex(entry.value, q, limit);
      KeptRowsPaths(q, entry.value.symbols);
      var byPath := SymbolsByPath(ws, offered.rows);
      if WellListed(ws) && FitsIndex(ws) {
        GroupedRowsSupply(ws, q, byPath, listed.value.items, listed.value.cut, limit);
        IndexedSearchAgrees(ws, q, byPath, listed.value.items, listed.value.cut, limit);
      }
      result := SearchScan(ws, q, limit, listed, Some(byPath), offered.truncated);
    }

    /** `search` with kind `file` or `text`, which never looks at symbols. */
    method SearchFilesOrText(ws: Workspace, q: Query, limit: nat) returns (result: Result)
      requires limit > 0 && q.Search? && (q.kind.FileKind? || q.kind.TextKind?)
      ensures result == Reference(ws, q, limit)
    {
      result := SearchScan(ws, q, limit, None, None, false);
    }

    /** `definition`: through a complete index, and by scanning otherwise. */
    method DefinitionOf(ws: Workspace, name: string, now: real, built: real, stored: real, ghost history: History)
      returns (result: Result)
      requires cache.Valid() && Sound(history) && history(KeyOf(ws)) == ws
      modifies cache
      ensures cache.Valid() && Sound(history)
      ensures
        var q, reference := Definition(name), Reference(ws, Definition(name), DEFAULT_LIMIT);
        && (WalkFromRoot(ws).failed || CurrentIndex(ws).truncated ==> result == reference)
        && (WellListed(ws) && !WalkFromRoot(ws).failed && !CurrentIndex(ws).truncated ==>
              (result == reference <==> FullBeforeRepeats(ws, q, WalkFromRoot(ws).items, DEFAULT_LIMIT)))
    {
      var q := Definition(name);
      var entry := Index(ws, now, built, stored, history);
      if entry.None? || entry.value.truncated {
        result := ScanFiles(ws, q, DEFAULT_LIMIT);
        return;
      }
      var response := DefinitionFromIndex(ws, q, entry.value);
      result := Success(response);
      ListedReference(ws, q, DEFAULT_LIMIT);
      if WellListed(ws) {
        IndexedDefinitionAgrees(ws, q, WalkFromRoot(ws).items, WalkFromRoot(ws).cut);
      }
    }
  }
}
