/** The in-memory cache of `rag/final/cache_manager.py`: one Gemini cached
    content per company, business-plan file and prompt version, found by a
    content-addressed key. */
module CacheManager {
  import opened JsonRepair

  /** `_build_cache_key`. */
  function BuildCacheKey(company: string, fileHash: string, promptVersion: string): (key: string)
    ensures |key| == 5 + |company| + |fileHash| + |promptVersion|
    ensures key[..3] == "vf:"
  {
    "vf:" + company + ":" + fileHash + ":" + promptVersion
  }

  const DefaultPromptVersion := "v1"

  /** For one company and prompt version the key determines the file hash. */
  lemma CacheKeyDeterminesHash(company: string, h1: string, h2: string, promptVersion: string)
    requires BuildCacheKey(company, h1, promptVersion) == BuildCacheKey(company, h2, promptVersion)
    ensures h1 == h2
  {
    var p := "vf:" + company + ":";
    var k1 := BuildCacheKey(company, h1, promptVersion);
    var k2 := BuildCacheKey(company, h2, promptVersion);
    assert k1 == p + h1 + (":" + promptVersion);
    assert k2 == p + h2 + (":" + promptVersion);
    assert k1[|p|..|p| + |h1|] == h1;
    assert k2[|p|..|p| + |h2|] == h2;
  }

  /** The last separator of `x:b`, when `b` has none, is the one before `b`. */
  lemma LastSeparator(x: string, b: string)
    requires ':' !in b
    ensures ':' in x + ":" + b && LastIndexOf(x + ":" + b, ':') == |x|
  {
    var s := x + ":" + b;
    assert s[|x|] == ':';
  }

  lemma SplitAtLastSeparator(x1: string, b1: string, x2: string, b2: string)
    requires ':' !in b1 && ':' !in b2
    requires x1 + ":" + b1 == x2 + ":" + b2
    ensures x1 == x2 && b1 == b2
  {
    var s := x1 + ":" + b1;
    LastSeparator(x1, b1);
    LastSeparator(x2, b2);
    assert s[..|x1|] == x1;
    assert (x2 + ":" + b2)[..|x2|] == x2;
    assert s[|x1| + 1..] == b1;
    assert (x2 + ":" + b2)[|x2| + 1..] == b2;
  }

  /** With colon-free hashes and versions (a hex digest has no colon), the
      key determines company, hash and version. */
  lemma CacheKeyInjective(c1: string, h1: string, v1: string, c2: string, h2: string, v2: string)
    requires ':' !in h1 && ':' !in h2 && ':' !in v1 && ':' !in v2
    requires BuildCacheKey(c1, h1, v1) == BuildCacheKey(c2, h2, v2)
    ensures c1 == c2 && h1 == h2 && v1 == v2
  {
    SplitAtLastSeparator("vf:" + c1 + ":" + h1, v1, "vf:" + c2 + ":" + h2, v2);
    SplitAtLastSeparator("vf:" + c1, h1, "vf:" + c2, h2);
    assert ("vf:" + c1)[3..] == c1;
    assert ("vf:" + c2)[3..] == c2;
  }

  /** Without that condition two different (company, hash) pairs can share
      a key, when the company name holds a colon. */
  lemma CacheKeyCollision(x: string, y: string, z: string, promptVersion: string)
    ensures BuildCacheKey(x + ":" + y, z, promptVersion) == BuildCacheKey(x, y + ":" + z, promptVersion)
  {
  }

  /** `_VF_CACHE_STORE` and the two service calls of a miss. */
  class VfCache {
    /** Cache key to cache name. */
    var store: map<string, string>
    /** File uploads made so far. */
    var uploads: nat
    /** Caches created so far. */
    var creates: nat
    /** The SHA-256 hex digest of a file's bytes. */
    const fileHash: seq<bv8> -> string
    /** The name the service gives the n-th cache created. */
    const cacheName: nat -> string

    constructor (fileHash: seq<bv8> -> string, cacheName: nat -> string)
      ensures store == map[] && uploads == 0 && creates == 0
      ensures this.fileHash == fileHash && this.cacheName == cacheName
    {
      store := map[];
      uploads := 0;
      creates := 0;
      this.fileHash := fileHash;
      this.cacheName := cacheName;
    }

    /** `get_or_create_cache_vf`. A stored name counts only when non-empty,
        as Python tests it for truth. */
    method GetOrCreateCacheVf(company: string, pdf: seq<bv8>, promptVersion: string) returns (id: string)
      modifies this
      ensures var key := BuildCacheKey(company, fileHash(pdf), promptVersion);
        if key in old(store) && old(store)[key] != "" then
          id == old(store)[key] && store == old(store) && uploads == old(uploads) && creates == old(creates)
        else
          id == cacheName(old(creates)) && store == old(store)[key := id] &&
          uploads == old(uploads) + 1 && creates == old(creates) + 1
      ensures old(store).Keys <= store.Keys
      ensures forall k :: k in old(store) && k != BuildCacheKey(company, fileHash(pdf), promptVersion) ==>
        k in store && store[k] == old(store)[k]
    {
      var key := BuildCacheKey(company, fileHash(pdf), promptVersion);
      if key in store && store[key] != "" {
        id := store[key];
        return;
      }
      uploads := uploads + 1;
      id := cacheName(creates);
      creates := creates + 1;
      store := store[key := id];
    }

    /** Two calls in a row for the same company, file and version: once the
        first has a (non-empty) name, the second returns it without calling
        the service. */
    method GetTwice(company: string, pdf: seq<bv8>, promptVersion: string) returns (first: string, second: string)
      modifies this
      ensures first != "" ==> second == first
      ensures var key := BuildCacheKey(company, fileHash(pdf), promptVersion);
        var made := if key in old(store) && old(store)[key] != "" then 0 else 1;
        first != "" ==> uploads == old(uploads) + made && creates == old(creates) + made
    {
      first := GetOrCreateCacheVf(company, pdf, promptVersion);
      second := GetOrCreateCacheVf(company, pdf, promptVersion);
    }
  }
}
