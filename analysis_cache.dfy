/**
 * The plugin-wide cache of Code Inspector analysis results.
 *
 * There are two key spaces. Ad-hoc analyses of one file are keyed by the
 * project id, the filename and a digest of the code. Analyses that the
 * service already ran for a project are keyed by that project's id,
 * revision and path. Whatever the service answers is stored, an empty
 * answer included, and later lookups with the same key return it without
 * asking the service again, until the whole cache is invalidated.
 *
 * The collaborators are given to the cache as functions: the language of a
 * filename, the MD5 digest of the code (`None` when the digest algorithm is
 * unavailable) and the service's two queries. Ghost counters record how
 * often each query was sent.
 */
module AnalysisCache {
  import opened Wrappers

  /** The cache key: project id, revision, filename or path, digest. Java's null is `None`. */
  datatype CacheKey = CacheKey(projectId: Option<int>, revision: Option<string>, filename: string, digest: Option<string>)

  /** The key of an ad-hoc file analysis. */
  function FileKey(projectId: Option<int>, filename: string, digest: Option<string>): (k: CacheKey)
    ensures k.revision.None? && k.projectId == projectId && k.filename == filename && k.digest == digest
  {
    CacheKey(projectId, None, filename, digest)
  }

  /** The key of an existing project analysis. */
  function ProjectKey(projectId: int, revision: Option<string>, path: string): (k: CacheKey)
    ensures k.revision == revision && k.digest.None? && k.projectId == Some(projectId) && k.filename == path
  {
    CacheKey(Some(projectId), revision, path, None)
  }

  /** File keys are equal exactly when project id, filename and digest are. */
  lemma FileKeyIdentifies(p1: Option<int>, f1: string, d1: Option<string>, p2: Option<int>, f2: string, d2: Option<string>)
    ensures FileKey(p1, f1, d1) == FileKey(p2, f2, d2) <==> p1 == p2 && f1 == f2 && d1 == d2
  {
  }

  /** Project keys are equal exactly when project id, revision and path are. */
  lemma ProjectKeyIdentifies(p1: int, r1: Option<string>, f1: string, p2: int, r2: Option<string>, f2: string)
    ensures ProjectKey(p1, r1, f1) == ProjectKey(p2, r2, f2) <==> p1 == p2 && r1 == r2 && f1 == f2
  {
  }

  /**
   * When the digest algorithm is unavailable every code of a file gets the
   * same key, so the second code is answered with the first one's result.
   */
  lemma MissingDigestSharesKey(md5: string -> Option<string>, p: Option<int>, f: string, code1: string, code2: string)
    requires md5(code1).None? && md5(code2).None?
    ensures FileKey(p, f, md5(code1)) == FileKey(p, f, md5(code2))
  {
  }

  /**
   * The cache. `L` is the language enumeration, `F` a file analysis, `P` a
   * project analysis.
   */
  class AnalysisDataCache<L(==), F, P> {
    const languageOf: string -> L
    const unknown: L
    const md5: string -> Option<string>
    const getFileAnalysis: (string, string, L, Option<int>) -> Option<F>
    const getDataForFile: (int, Option<string>, string) -> Option<P>

    var cacheProjectAnalysis: map<CacheKey, Option<P>>
    var cacheFileAnalysis: map<CacheKey, Option<F>>
    ghost var fileQueries: nat
    ghost var projectQueries: nat

    constructor (languageOf: string -> L, unknown: L, md5: string -> Option<string>,
                 getFileAnalysis: (string, string, L, Option<int>) -> Option<F>,
                 getDataForFile: (int, Option<string>, string) -> Option<P>)
      ensures this.languageOf == languageOf && this.unknown == unknown && this.md5 == md5
      ensures this.getFileAnalysis == getFileAnalysis && this.getDataForFile == getDataForFile
      ensures cacheProjectAnalysis == map[] && cacheFileAnalysis == map[]
      ensures fileQueries == 0 && projectQueries == 0
    {
      this.languageOf := languageOf;
      this.unknown := unknown;
      this.md5 := md5;
      this.getFileAnalysis := getFileAnalysis;
      this.getDataForFile := getDataForFile;
      cacheProjectAnalysis := map[];
      cacheFileAnalysis := map[];
      fileQueries := 0;
      projectQueries := 0;
    }

    /**
     * Violations of one file. A filename of unknown language is answered
     * with `None` and touches nothing. Otherwise a miss sends one query and
     * stores its answer, an empty one too; a hit sends none and changes
     * nothing. The answer is the stored entry.
     */
    method GetViolationsFromFileAnalysis(projectId: Option<int>, filename: string, code: string) returns (r: Option<F>)
      modifies this
      ensures cacheProjectAnalysis == old(cacheProjectAnalysis) && projectQueries == old(projectQueries)
      ensures languageOf(filename) == unknown ==>
        r == None && cacheFileAnalysis == old(cacheFileAnalysis) && fileQueries == old(fileQueries)
      ensures languageOf(filename) != unknown ==>
        var key := FileKey(projectId, filename, md5(code));
        key in cacheFileAnalysis && r == cacheFileAnalysis[key]
      ensures languageOf(filename) != unknown && FileKey(projectId, filename, md5(code)) in old(cacheFileAnalysis) ==>
        cacheFileAnalysis == old(cacheFileAnalysis) && fileQueries == old(fileQueries)
      ensures languageOf(filename) != unknown && FileKey(projectId, filename, md5(code)) !in old(cacheFileAnalysis) ==>
        var answer := getFileAnalysis(filename, code, languageOf(filename), projectId);
        cacheFileAnalysis == old(cacheFileAnalysis)[FileKey(projectId, filename, md5(code)) := answer]
        && r == answer && fileQueries == old(fileQueries) + 1
    {
      var digest := md5(code);
      var cacheKey := FileKey(projectId, filename, digest);
      var language := languageOf(filename);
      if language == unknown {
        return None;
      }
      if cacheKey !in cacheFileAnalysis {
        var query := getFileAnalysis(filename, code, language, projectId);
        fileQueries := fileQueries + 1;
        cacheFileAnalysis := cacheFileAnalysis[cacheKey := query];
      }
      r := cacheFileAnalysis[cacheKey];
    }

    /**
     * Violations from an existing project analysis. A miss sends one query
     * and stores its answer; a hit sends none. The answer is the stored entry.
     */
    method GetViolationsFromProjectAnalysis(projectId: int, revision: Option<string>, path: string) returns (r: Option<P>)
      modifies this
      ensures cacheFileAnalysis == old(cacheFileAnalysis) && fileQueries == old(fileQueries)
      ensures ProjectKey(projectId, revision, path) in cacheProjectAnalysis
      ensures r == cacheProjectAnalysis[ProjectKey(projectId, revision, path)]
      ensures ProjectKey(projectId, revision, path) in old(cacheProjectAnalysis) ==>
        cacheProjectAnalysis == old(cacheProjectAnalysis) && projectQueries == old(projectQueries)
      ensures ProjectKey(projectId, revision, path) !in old(cacheProjectAnalysis) ==>
        cacheProjectAnalysis == old(cacheProjectAnalysis)[ProjectKey(projectId, revision, path) := getDataForFile(projectId, revision, path)]
        && projectQueries == old(projectQueries) + 1
    {
      var cacheKey := ProjectKey(projectId, revision, path);
      if cacheKey !in cacheProjectAnalysis {
        var query := getDataForFile(projectId, revision, path);
        projectQueries := projectQueries + 1;
        cacheProjectAnalysis := cacheProjectAnalysis[cacheKey := query];
      }
      r := cacheProjectAnalysis[cacheKey];
    }

    /** Empties both key spaces. */
    method InvalidateCache()
      modifies this
      ensures cacheProjectAnalysis == map[] && cacheFileAnalysis == map[]
      ensures fileQueries == old(fileQueries) && projectQueries == old(projectQueries)
    {
      cacheProjectAnalysis := map[];
      cacheFileAnalysis := map[];
    }
  }

  // ---------------------------------------------------------------------------
  // Sequences of lookups, as a caller sees them.

  /**
   * Negative caching and content addressing: the same file and code looked
   * up twice send at most one query between them, and the second answer,
   * empty or not, is the first one.
   */
  method RepeatedFileLookup<L(==), F, P>(c: AnalysisDataCache<L, F, P>, projectId: Option<int>, filename: string, code: string)
    returns (first: Option<F>, second: Option<F>)
    modifies c
    ensures first == second
    ensures c.languageOf(filename) != c.unknown ==>
      c.fileQueries == old(c.fileQueries) + (if FileKey(projectId, filename, c.md5(code)) in old(c.cacheFileAnalysis) then 0 else 1)
    ensures c.languageOf(filename) != c.unknown && FileKey(projectId, filename, c.md5(code)) in old(c.cacheFileAnalysis) ==>
      first == old(c.cacheFileAnalysis)[FileKey(projectId, filename, c.md5(code))]
    ensures c.languageOf(filename) == c.unknown ==> c.fileQueries == old(c.fileQueries) && c.cacheFileAnalysis == old(c.cacheFileAnalysis)
  {
    first := c.GetViolationsFromFileAnalysis(projectId, filename, code);
    ghost var queries := c.fileQueries;
    second := c.GetViolationsFromFileAnalysis(projectId, filename, code);
    assert c.fileQueries == queries;
  }

  /** After an invalidation the next lookup is a miss and asks the service again. */
  method LookupAfterInvalidation<L(==), F, P>(c: AnalysisDataCache<L, F, P>, projectId: int, revision: Option<string>, path: string)
    returns (r: Option<P>)
    modifies c
    ensures r == c.getDataForFile(projectId, revision, path)
    ensures c.projectQueries == old(c.projectQueries) + 1
    ensures c.cacheProjectAnalysis == map[ProjectKey(projectId, revision, path) := r]
  {
    c.InvalidateCache();
    r := c.GetViolationsFromProjectAnalysis(projectId, revision, path);
  }

  /**
   * Two codes whose digests differ are two entries: looking up the second
   * after the first misses, and both stay in the cache.
   */
  method DistinctDigestsDistinctEntries<L(==), F, P>(c: AnalysisDataCache<L, F, P>, projectId: Option<int>, filename: string, code1: string, code2: string)
    returns (r1: Option<F>, r2: Option<F>)
    requires c.languageOf(filename) != c.unknown && c.md5(code1) != c.md5(code2)
    requires FileKey(projectId, filename, c.md5(code2)) !in c.cacheFileAnalysis
    modifies c
    ensures r2 == c.getFileAnalysis(filename, code2, c.languageOf(filename), projectId)
    ensures FileKey(projectId, filename, c.md5(code1)) in c.cacheFileAnalysis
    ensures c.cacheFileAnalysis[FileKey(projectId, filename, c.md5(code1))] == r1
    ensures c.fileQueries == old(c.fileQueries) + (if FileKey(projectId, filename, c.md5(code1)) in old(c.cacheFileAnalysis) then 0 else 1) + 1
  {
    r1 := c.GetViolationsFromFileAnalysis(projectId, filename, code1);
    r2 := c.GetViolationsFromFileAnalysis(projectId, filename, code2);
  }

  /**
   * Without a digest algorithm, a second code of a file is answered from
   * the first code's entry: no query is sent for it, and its answer is the
   * one cached for the first code, whatever the service would say about it.
   */
  method MissingDigestReusesAnswer<L(==), F, P>(c: AnalysisDataCache<L, F, P>, projectId: Option<int>, filename: string, code1: string, code2: string)
    returns (r1: Option<F>, r2: Option<F>)
    requires c.languageOf(filename) != c.unknown && c.md5(code1).None? && c.md5(code2).None?
    modifies c
    ensures r2 == r1
    ensures FileKey(projectId, filename, None) !in old(c.cacheFileAnalysis) ==>
      r2 == c.getFileAnalysis(filename, code1, c.languageOf(filename), projectId)
    ensures c.fileQueries == old(c.fileQueries) + (if FileKey(projectId, filename, None) in old(c.cacheFileAnalysis) then 0 else 1)
  {
    r1 := c.GetViolationsFromFileAnalysis(projectId, filename, code1);
    ghost var queries := c.fileQueries;
    MissingDigestSharesKey(c.md5, projectId, filename, code1, code2);
    r2 := c.GetViolationsFromFileAnalysis(projectId, filename, code2);
    assert c.fileQueries == queries;
  }
}
