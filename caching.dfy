/** The disk cache: one JSON file per key under the cache directory, aged by the file's
    modification time, plus the daily ignore list. The directory is a map from file name
    to entry; the clock and today's local midnight are parameters. */
module Caching {
  import opened Common
  import opened Strings
  import opened Records

  /** Repo records are re-checked on the hour. */
  const ProjectExpiry: real := 3600.0
  /** The outgoing flag is re-checked every four hours. */
  const OutgoingExpiry: real := 14400.0
  /** The expiry `Repo._getinfo` uses when it reads the "old value". */
  const StaleExpiry: real := 10000000000.0

  /** Every '/' of s replaced by ':'. */
  function SlashesToColons(s: string): (r: string)
    ensures |r| == |s| && '/' !in r
  {
    if s == [] then [] else [if s[0] == '/' then ':' else s[0]] + SlashesToColons(s[1..])
  }

  /** Every ':' of s replaced by '/': the inverse of SlashesToColons on colon-free text. */
  function ColonsToSlashes(s: string): (r: string)
    ensures |r| == |s|
  {
    if s == [] then [] else [if s[0] == ':' then '/' else s[0]] + ColonsToSlashes(s[1..])
  }

  lemma {:induction false} SanitiseRoundTrip(key: string)
    requires ':' !in key
    ensures ColonsToSlashes(SlashesToColons(key)) == key
  {
    if key != [] {
      SanitiseRoundTrip(key[1..]);
    }
  }

  /** `_getcachepath`: the file name a key is stored under. A key holding ':' is meant to be
      base64-encoded, but `base64.b64encode` rejects a `str`, so such a key raises. */
  function CachePath(key: string): (r: Result<string>)
    ensures r.Err? <==> ':' in key
    ensures r.Ok? ==> '/' !in r.value && ColonsToSlashes(r.value) == key
  {
    if ':' in key then Err(UnencodableKey(key))
    else
      SanitiseRoundTrip(key);
      Ok(SlashesToColons(key))
  }

  /** Distinct keys are stored under distinct file names. */
  lemma CachePathInjective(k1: string, k2: string)
    requires CachePath(k1).Ok? && CachePath(k2).Ok?
    requires k1 != k2
    ensures CachePath(k1).value != CachePath(k2).value
  {
  }

  /** One cache file: its JSON payload and its modification time. */
  datatype Entry = Entry(value: CacheValue, mtime: real)

  /** The ignore-list file: the JSON list of names and its modification time. */
  datatype IgnoreRecord = IgnoreRecord(names: seq<string>, mtime: real)

  /** `mtime + expiry < time.time()`: the entry is too old and is treated as absent. */
  predicate Expired(e: Entry, expiry: real, now: real) {
    e.mtime + expiry < now
  }

  /** The outcome of `getcache`: what it returns and the cache directory afterwards. */
  datatype Read = Read(result: Result<Option<CacheValue>>, files: map<string, Entry>)

  /** `DiskCache.getcache(key, expiry)` at time `now`: absent, expired (and then deleted),
      or the stored value. */
  function Get(files: map<string, Entry>, key: string, expiry: real, now: real): (r: Read)
    ensures r.result.Err? <==> ':' in key
    ensures r.files.Keys <= files.Keys && forall n :: n in r.files ==> r.files[n] == files[n]
    ensures r.result.Ok? && r.result.value.Some? ==>
      && r.files == files && CachePath(key).value in files
      && !Expired(files[CachePath(key).value], expiry, now)
      && r.result.value.value == files[CachePath(key).value].value
  {
    match CachePath(key)
    case Err(e) => Read(Err(e), files)
    case Ok(name) =>
      if name !in files then Read(Ok(None), files)
      else if Expired(files[name], expiry, now) then Read(Ok(None), files - {name})
      else Read(Ok(Some(files[name].value)), files)
  }

  /** `DiskCache.setcache(key, value)` at time `now`: a whole-entry overwrite. */
  function Put(files: map<string, Entry>, key: string, value: CacheValue, now: real): (r: Result<map<string, Entry>>)
    ensures r.Err? <==> ':' in key
    ensures r.Ok? ==> CachePath(key).value in r.value && r.value[CachePath(key).value] == Entry(value, now)
    ensures r.Ok? ==> r.value.Keys == files.Keys + {CachePath(key).value}
    ensures r.Ok? ==> forall n :: n in files && n != CachePath(key).value ==> r.value[n] == files[n]
  {
    match CachePath(key)
    case Err(e) => Err(e)
    case Ok(name) => Ok(files[name := Entry(value, now)])
  }

  /** `DiskCache.clearcache(key)` */
  function Drop(files: map<string, Entry>, key: string): (r: Result<map<string, Entry>>)
    ensures r.Err? <==> ':' in key
    ensures r.Ok? ==> r.value.Keys == files.Keys - {CachePath(key).value}
    ensures r.Ok? ==> forall n :: n in r.value ==> r.value[n] == files[n]
  {
    match CachePath(key)
    case Err(e) => Err(e)
    case Ok(name) => Ok(files - {name})
  }

  /** `DiskCache.getignorelist()` given today's local midnight: the stored names, or nothing
      (deleting the file) when it was written before midnight. */
  function IgnoreGet(rec: Option<IgnoreRecord>, midnight: real): (r: (set<string>, Option<IgnoreRecord>))
    ensures r.1.None? <==> rec.None? || rec.value.mtime < midnight
    ensures r.1.None? ==> r.0 == {}
    ensures r.1.Some? ==> r.1 == rec && forall n :: n in r.0 <==> n in rec.value.names
  {
    match rec
    case None => ({}, None)
    case Some(r) =>
      if r.mtime < midnight then ({}, None)
      else ((set n | n in r.names), rec)
  }

  /** A value written at time t and read back no later than t + expiry is returned unchanged. */
  lemma SetThenGet(files: map<string, Entry>, key: string, v: CacheValue, t: real, expiry: real, now: real)
    requires Put(files, key, v, t).Ok?
    requires now <= t + expiry
    ensures Get(Put(files, key, v, t).value, key, expiry, now).result == Ok(Some(v))
  {
  }

  /** Writing one key does not change what any other key reads. */
  lemma SetOtherKey(files: map<string, Entry>, key: string, v: CacheValue, t: real, other: string, expiry: real, now: real)
    requires Put(files, key, v, t).Ok?
    requires other != key
    ensures Get(Put(files, key, v, t).value, other, expiry, now).result == Get(files, other, expiry, now).result
  {
    if CachePath(other).Ok? {
      CachePathInjective(key, other);
    }
  }

  /** Lazy eviction is permanent: once a read misses, every later read of that key misses,
      whatever its expiry and time. In particular the "old value" read of `Repo._getinfo`,
      made right after a fresh read that missed, always misses. */
  lemma MissIsPermanent(files: map<string, Entry>, key: string, e1: real, n1: real, e2: real, n2: real)
    requires Get(files, key, e1, n1).result == Ok(None)
    ensures Get(Get(files, key, e1, n1).files, key, e2, n2).result == Ok(None)
  {
  }

  /** A read that hits, or finds nothing, leaves the directory as it was; a read that
      finds an expired entry deletes exactly that entry. */
  lemma GetFrame(files: map<string, Entry>, key: string, expiry: real, now: real)
    ensures Get(files, key, expiry, now).files == files
         || (CachePath(key).Ok? && CachePath(key).value in files
             && Get(files, key, expiry, now).result == Ok(None)
             && Get(files, key, expiry, now).files == files - {CachePath(key).value})
  {
  }

  /** Clearing a key makes it read as absent, touches no other key, and is idempotent. */
  lemma ClearOnlyKey(files: map<string, Entry>, key: string, other: string, expiry: real, now: real)
    requires Drop(files, key).Ok?
    ensures Get(Drop(files, key).value, key, expiry, now).result == Ok(None)
    ensures other != key ==> Get(Drop(files, key).value, other, expiry, now).result == Get(files, other, expiry, now).result
    ensures Drop(Drop(files, key).value, key) == Drop(files, key)
  {
    var name := CachePath(key).value;
    assert (files - {name}) - {name} == files - {name};
    if other != key && CachePath(other).Ok? {
      CachePathInjective(key, other);
    }
  }

  /** The ignore list lasts the day it was written: read back at a midnight no later than
      the write it gives the names written, duplicates collapsed; read after a later
      midnight it is empty and the file is gone. Without a file it is empty. */
  lemma IgnoreListExpiry(names: seq<string>, written: real, midnight: real)
    ensures IgnoreGet(None, midnight) == ({}, None)
    ensures midnight <= written ==>
      forall n :: n in IgnoreGet(Some(IgnoreRecord(names, written)), midnight).0 <==> n in names
    ensures written < midnight ==> IgnoreGet(Some(IgnoreRecord(names, written)), midnight) == ({}, None)
  {
  }

  class DiskCache {
    /** The cache directory: file name to entry. */
    var files: map<string, Entry>
    /** The ignore-list file, if present. */
    var ignoreRecord: Option<IgnoreRecord>

    constructor (files: map<string, Entry>, ignoreRecord: Option<IgnoreRecord>)
      ensures this.files == files && this.ignoreRecord == ignoreRecord
    {
      this.files := files;
      this.ignoreRecord := ignoreRecord;
    }

    /** `getcache` */
    method GetCache(key: string, expiry: real, now: real) returns (r: Result<Option<CacheValue>>)
      modifies this
      ensures r == Get(old(files), key, expiry, now).result
      ensures files == Get(old(files), key, expiry, now).files
      ensures ignoreRecord == old(ignoreRecord)
    {
      var path := CachePath(key);
      if path.Err? {
        return Err(path.error);
      }
      var name := path.value;
      if name !in files {
        return Ok(None);
      }
      if files[name].mtime + expiry < now {
        files := files - {name};
        return Ok(None);
      }
      r := Ok(Some(files[name].value));
    }

    /** `setcache` */
    method SetCache(key: string, value: CacheValue, now: real) returns (r: Result<()>)
      modifies this
      ensures r.Ok? <==> Put(old(files), key, value, now).Ok?
      ensures r.Err? ==> r.error == UnencodableKey(key) && files == old(files)
      ensures r.Ok? ==> files == Put(old(files), key, value, now).value
      ensures ignoreRecord == old(ignoreRecord)
    {
      var path := CachePath(key);
      if path.Err? {
        return Err(path.error);
      }
      files := files[path.value := Entry(value, now)];
      r := Ok(());
    }

    /** `clearcache` */
    method ClearCache(key: string) returns (r: Result<()>)
      modifies this
      ensures r.Ok? <==> Drop(old(files), key).Ok?
      ensures r.Err? ==> r.error == UnencodableKey(key) && files == old(files)
      ensures r.Ok? ==> files == Drop(old(files), key).value
      ensures ignoreRecord == old(ignoreRecord)
    {
      var path := CachePath(key);
      if path.Err? {
        return Err(path.error);
      }
      if path.value in files {
        files := files - {path.value};
      }
      r := Ok(());
    }

    /** `getignorelist`, given the timestamp of today's local midnight. */
    method GetIgnoreList(midnight: real) returns (names: set<string>)
      modifies this
      ensures (names, ignoreRecord) == IgnoreGet(old(ignoreRecord), midnight)
      ensures files == old(files)
    {
      if ignoreRecord.None? {
        return {};
      }
      if ignoreRecord.value.mtime < midnight {
        ignoreRecord := None;
        return {};
      }
      names := set n | n in ignoreRecord.value.names;
    }

    /** `setignorelist`: the names are written as a JSON list at time `now`. */
    method SetIgnoreList(names: seq<string>, now: real)
      modifies this
      ensures ignoreRecord == Some(IgnoreRecord(names, now))
      ensures files == old(files)
      ensures forall midnight :: midnight <= now ==>
        IgnoreGet(ignoreRecord, midnight).0 == set n | n in names
    {
      ignoreRecord := Some(IgnoreRecord(names, now));
    }
  }
}
