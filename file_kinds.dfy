/**
 * File suffixes that decide how a path is treated.  The two suffixes belong to
 * the session and scene classes of `abcview.io`, which is not part of this model;
 * AbcView writes its session files as `.io` and reads Alembic caches as `.abc`.
 */
module FileKinds {

  const SESSION_EXT: string := "io"
  const SCENE_EXT: string := "abc"

  /** Python's `str.endswith`. */
  predicate EndsWith(s: string, suffix: string): (b: bool)
    ensures b <==> |suffix| <= |s| && s[..|s| - |suffix|] + suffix == s
  {
    |suffix| <= |s| && (assert s[..|s| - |suffix|] + s[|s| - |suffix|..] == s; s[|s| - |suffix|..] == suffix)
  }

  predicate IsSessionFile(path: string) { EndsWith(path, SESSION_EXT) }

  predicate IsSceneFile(path: string) { EndsWith(path, SCENE_EXT) }
}
