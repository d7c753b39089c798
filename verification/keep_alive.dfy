/** The keep-alive page-state cache: per-key page records (scroll position,
    cached form values, named custom values, time of the last write) and the
    form and state caches built on it under keys `path:name`. The current
    time is a parameter. */
module KeepAlive {
  import opened Wrappers
  import opened Values
  import Seqs

  datatype PageState = PageState(scrollY: int, formData: Option<Record>, customState: Option<Record>, timestamp: int)

  /** The argument of `setPageState` (`Partial<PageState>`): `None` for a key
      that is not present. */
  datatype PagePatch = PagePatch(scrollY: Option<int>, formData: Option<Record>, customState: Option<Record>, timestamp: Option<int>)

  /** The record `setPageState` starts from when the key is absent. */
  function Blank(now: int): PageState {
    PageState(0, None, None, now)
  }

  /** `{ ...existing, ...state, timestamp: now }` with `existing` the stored
      record or a blank one. */
  function MergePageState(existing: Option<PageState>, patch: PagePatch, now: int): PageState {
    var base := existing.GetOr(Blank(now));
    PageState(
      patch.scrollY.GetOr(base.scrollY),
      if patch.formData.Some? then patch.formData else base.formData,
      if patch.customState.Some? then patch.customState else base.customState,
      now)
  }

  function Lookup(cache: map<string, PageState>, path: string): Option<PageState> {
    if path in cache then Some(cache[path]) else None
  }

  /** The cache after `setPageState(path, patch)` at time `now`. */
  function SetEntry(cache: map<string, PageState>, path: string, patch: PagePatch, now: int): map<string, PageState> {
    cache[path := MergePageState(Lookup(cache, path), patch, now)]
  }

  /** A fresh key starts from scroll position 0 and no cached data, then takes
      what the patch gives. */
  lemma SetOnAbsentKey(cache: map<string, PageState>, path: string, patch: PagePatch, now: int)
    requires path !in cache
    ensures var e := SetEntry(cache, path, patch, now)[path];
      && e.scrollY == (if patch.scrollY.Some? then patch.scrollY.value else 0)
      && e.formData == patch.formData && e.customState == patch.customState && e.timestamp == now
  {
  }

  /** A shallow merge: fields the patch leaves out keep their old values, the
      timestamp is always the time of the write (whatever the patch says),
      and no other key changes. */
  lemma SetMergesShallowly(cache: map<string, PageState>, path: string, patch: PagePatch, now: int)
    requires path in cache
    ensures var e := SetEntry(cache, path, patch, now)[path];
      && (patch.scrollY.None? ==> e.scrollY == cache[path].scrollY)
      && (patch.formData.None? ==> e.formData == cache[path].formData)
      && (patch.customState.None? ==> e.customState == cache[path].customState)
      && e.timestamp == now
  {
  }

  /** Only the key written changes. */
  lemma SetTouchesOneKey(cache: map<string, PageState>, path: string, patch: PagePatch, now: int)
    ensures var c := SetEntry(cache, path, patch, now);
      c.Keys == cache.Keys + {path} && forall k :: k in cache && k != path ==> c[k] == cache[k]
  {
  }

  /** Round trip: the scroll position written is the one read back. */
  lemma ScrollRoundTrip(cache: map<string, PageState>, path: string, y: int, now: int)
    ensures Lookup(SetEntry(cache, path, PagePatch(Some(y), None, None, None), now), path).Some?
    ensures Lookup(SetEntry(cache, path, PagePatch(Some(y), None, None, None), now), path).value.scrollY == y
  {
  }

  // -------------------------------------------------------- form and state caches

  /** The cache key of `useFormCache` and `useStateCache`. */
  function CacheKey(pathname: string, name: string): (k: string)
    ensures |k| == |pathname| + 1 + |name| && k[|pathname|] == ':'
    ensures k[..|pathname|] == pathname && k[|pathname| + 1..] == name
  {
    pathname + ":" + name
  }

  function IsColon(c: char): bool { c == ':' }

  /** In the key of a path without a colon, the first colon ends the path. */
  lemma FirstColonEndsPath(pathname: string, name: string)
    requires ':' !in pathname
    ensures Seqs.FindIndex(CacheKey(pathname, name), IsColon) == Some(|pathname|)
  {
    var k := CacheKey(pathname, name);
    assert forall i :: 0 <= i < |pathname| ==> k[i] == pathname[i];
  }

  /** For paths without a colon, the cache key determines the path and the
      name, so two forms never share an entry. */
  lemma CacheKeyInjective(p1: string, n1: string, p2: string, n2: string)
    requires ':' !in p1 && ':' !in p2
    requires CacheKey(p1, n1) == CacheKey(p2, n2)
    ensures p1 == p2 && n1 == n2
  {
    FirstColonEndsPath(p1, n1);
    FirstColonEndsPath(p2, n2);
  }

  /** The initial value of `useFormCache`: the cached form data when present,
      otherwise the given initial values. */
  function CachedFormValues(entry: Option<PageState>, initialValues: Record): (r: Record)
    ensures entry.Some? && entry.value.formData.Some? ==> r == entry.value.formData.value
    ensures entry.None? || entry.value.formData.None? ==> r == initialValues
  {
    if entry.Some? && entry.value.formData.Some? then entry.value.formData.value else initialValues
  }

  /** The initial value of `useStateCache`: the cached custom value under the
      name unless it is `undefined` (or missing), otherwise the initial value. */
  function CachedStateValue(entry: Option<PageState>, key: string, initialValue: Value): (r: Value)
    ensures HasCustomValue(entry, key) ==> r == entry.value.customState.value[key] && r != Undefined
    ensures !HasCustomValue(entry, key) ==> r == initialValue
    ensures r != initialValue ==> HasCustomValue(entry, key)
  {
    if HasCustomValue(entry, key) then entry.value.customState.value[key] else initialValue
  }

  /** `pageState?.customState?.[key] !== undefined`. */
  predicate HasCustomValue(entry: Option<PageState>, key: string) {
    && entry.Some? && entry.value.customState.Some? && key in entry.value.customState.value
    && entry.value.customState.value[key] != Undefined
  }

  /** The custom state `setValue` writes: the stored custom state (or none)
      with the one name set. */
  function WithCustomValue(entry: Option<PageState>, key: string, value: Value): Record {
    var current := if entry.Some? && entry.value.customState.Some? then entry.value.customState.value else map[];
    Spread(current, map[key := value])
  }

  /** Saving a form and reading it back gives the saved values, whatever the
      initial values. */
  lemma FormRoundTrip(cache: map<string, PageState>, key: string, values: Record, initialValues: Record, now: int)
    ensures CachedFormValues(Lookup(SetEntry(cache, key, PagePatch(None, Some(values), None, None), now), key), initialValues) == values
  {
  }

  /** Setting a named value and reading it back gives that value unless it is
      `undefined`; the other names of the custom state keep their values. */
  lemma StateRoundTrip(cache: map<string, PageState>, ck: string, key: string, value: Value, initialValue: Value, now: int)
    ensures var c := SetEntry(cache, ck, PagePatch(None, None, Some(WithCustomValue(Lookup(cache, ck), key, value)), None), now);
      && (value != Undefined ==> CachedStateValue(Lookup(c, ck), key, initialValue) == value)
      && (value == Undefined ==> CachedStateValue(Lookup(c, ck), key, initialValue) == initialValue)
      && (forall n :: n != key && ck in cache && cache[ck].customState.Some? && n in cache[ck].customState.value ==>
            n in c[ck].customState.value && c[ck].customState.value[n] == cache[ck].customState.value[n])
  {
  }

  // -------------------------------------------------------------- the cache

  /** The `pageCache` signal. */
  class PageCache {
    var cache: map<string, PageState>

    constructor ()
      ensures cache == map[]
    {
      cache := map[];
    }

    /** `getPageState`. */
    function GetPageState(path: string): (r: Option<PageState>)
      reads this
      ensures r.Some? <==> path in cache
      ensures r.Some? ==> r.value == cache[path]
    {
      Lookup(cache, path)
    }

    /** `setPageState`. */
    method SetPageState(path: string, patch: PagePatch, now: int)
      modifies this
      ensures cache == SetEntry(old(cache), path, patch, now)
    {
      var existing := GetPageState(path);
      cache := cache[path := MergePageState(existing, patch, now)];
    }

    /** `clearPageState`: the key is gone, every other entry stays. */
    method ClearPageState(path: string)
      modifies this
      ensures cache == old(cache) - {path}
      ensures path !in cache && forall k :: k in old(cache) && k != path ==> k in cache && cache[k] == old(cache)[k]
    {
      cache := cache - {path};
    }

    /** `clearAllCache`. */
    method ClearAllCache()
      modifies this
      ensures cache == map[]
    {
      cache := map[];
    }

    /** The `saveValues` callback of `useFormCache`: its throwaway signal
        aside, it only writes the form data under the form's key. */
    method SaveFormValues(pathname: string, formKey: string, values: Record, now: int)
      modifies this
      ensures cache == SetEntry(old(cache), CacheKey(pathname, formKey), PagePatch(None, Some(values), None, None), now)
    {
      SetPageState(CacheKey(pathname, formKey), PagePatch(None, Some(values), None, None), now);
    }

    /** The `clearCache` callback of `useFormCache`: it writes the initial
        values and then deletes the entry, so the entry is simply gone. */
    method ClearFormCache(pathname: string, formKey: string, initialValues: Record, now: int)
      modifies this
      ensures cache == old(cache) - {CacheKey(pathname, formKey)}
    {
      var key := CacheKey(pathname, formKey);
      SetPageState(key, PagePatch(None, Some(initialValues), None, None), now);
      ClearPageState(key);
    }

    /** The `setValue` callback of `useStateCache`: it merges the one name into
        the stored custom state. */
    method SetStateValue(pathname: string, key: string, value: Value, now: int)
      modifies this
      ensures var ck := CacheKey(pathname, key);
        cache == SetEntry(old(cache), ck, PagePatch(None, None, Some(WithCustomValue(Lookup(old(cache), ck), key, value)), None), now)
    {
      var ck := CacheKey(pathname, key);
      var pageState := GetPageState(ck).GetOr(Blank(now));
      var current := if pageState.customState.Some? then pageState.customState.value else map[];
      SetPageState(ck, PagePatch(None, None, Some(Spread(current, map[key := value])), None), now);
    }
  }
}
