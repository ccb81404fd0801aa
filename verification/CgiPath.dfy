/** The CGI path variables of `cgi.rs` (section 4.1 of RFC 3875) and the
    directory-index rewrite that precedes them in `server.rs`. */
module CgiPath {
  import opened Wrappers
  import opened Bytes
  import opened CleanPath

  function EnsureLeadingSlash(path: bytes): bytes {
    if path == [] || path[0] == SLASH then path else [SLASH] + path
  }

  // ---- Split positions ----------------------------------------------------

  /** ASCII-only, case-insensitive on the path's side. */
  predicate Folds(run: bytes, split: bytes) {
    |run| == |split| && forall k :: 0 <= k < |split| ==> run[k] < 128 && Lower(run[k]) == split[k]
  }

  predicate MatchesAt(path: bytes, split: bytes, start: nat) {
    start + |split| <= |path| && Folds(path[start..start + |split|], split)
  }

  predicate NoMatch(path: bytes, split: bytes) {
    forall start: nat :: start <= |path| ==> !MatchesAt(path, split, start)
  }

  /** The first match at or after `start`. */
  function FirstMatch(path: bytes, split: bytes, start: nat): Option<nat>
    decreases |path| - start
  {
    if start + |split| > |path| then None else
    if MatchesAt(path, split, start) then Some(start) else FirstMatch(path, split, start + 1)
  }

  /** The end of the first match of the first entry that matches at all. */
  function SplitFrom(path: bytes, splits: seq<bytes>): int {
    if splits == [] then -1 else
    if splits[0] == [] then SplitFrom(path, splits[1..]) else
    match FirstMatch(path, splits[0], 0)
    case Some(start) => start + |splits[0]|
    case None => SplitFrom(path, splits[1..])
  }

  function SplitPos(path: bytes, splits: seq<bytes>): int {
    if splits == [] then 0 else SplitFrom(path, splits)
  }

  method Compare(run: bytes, split: bytes) returns (matched: bool)
    requires |run| == |split|
    ensures matched == Folds(run, split)
  {
    for k := 0 to |split|
      invariant forall j :: 0 <= j < k ==> run[j] < 128 && Lower(run[j]) == split[j]
    {
      if !(run[k] < 128 && Lower(run[k]) == split[k]) {
        return false;
      }
    }
    return true;
  }

  method SplitPosition(path: bytes, splits: seq<bytes>) returns (position: int)
    ensures position == SplitPos(path, splits)
  {
    if splits == [] {
      return 0;
    }
    for i := 0 to |splits|
      invariant SplitFrom(path, splits) == SplitFrom(path, splits[i..])
    {
      var split := splits[i];
      assert splits[i..][1..] == splits[i + 1..];
      if split == [] || |split| > |path| {
        continue;
      }
      for start := 0 to |path| - |split| + 1
        invariant FirstMatch(path, split, 0) == FirstMatch(path, split, start)
      {
        var matched := Compare(path[start..start + |split|], split);
        if matched {
          return start + |split|;
        }
      }
    }
    return -1;
  }

  lemma {:induction false} FirstMatchIsFirst(path: bytes, split: bytes, start: nat)
    ensures match FirstMatch(path, split, start)
            case Some(k) =>
              && start <= k && MatchesAt(path, split, k)
              && forall j: nat :: start <= j < k ==> !MatchesAt(path, split, j)
            case None => forall j: nat :: start <= j ==> !MatchesAt(path, split, j)
    decreases |path| - start
  {
    if start + |split| <= |path| && !MatchesAt(path, split, start) {
      FirstMatchIsFirst(path, split, start + 1);
    }
  }

  /** Entry `i` decides the split at `start`: it is the first non-empty entry
      with a match, and `start` is its first match. */
  ghost predicate Decides(path: bytes, splits: seq<bytes>, i: nat, start: nat) {
    && i < |splits| && splits[i] != [] && MatchesAt(path, splits[i], start)
    && (forall j: nat :: j < start ==> !MatchesAt(path, splits[i], j))
    && (forall h :: 0 <= h < i && splits[h] != [] ==> NoMatch(path, splits[h]))
  }

  lemma {:induction false} SplitFromIsFirst(path: bytes, splits: seq<bytes>) returns (i: nat, start: nat)
    ensures if SplitFrom(path, splits) == -1
            then forall h :: 0 <= h < |splits| && splits[h] != [] ==> NoMatch(path, splits[h])
            else Decides(path, splits, i, start) && SplitFrom(path, splits) == start + |splits[i]|
  {
    i, start := 0, 0;
    if splits != [] {
      FirstMatchIsFirst(path, splits[0], 0);
      match if splits[0] == [] then None else FirstMatch(path, splits[0], 0) {
        case Some(k) => start := k;
        case None =>
          var i', start' := SplitFromIsFirst(path, splits[1..]);
          i, start := i' + 1, start';
      }
    }
  }

  // ---- The four variables -------------------------------------------------

  datatype CgiPaths = CgiPaths(docUri: bytes, pathInfo: bytes, scriptName: bytes, scriptFilename: bytes)

  const DOT_PHP: bytes := [46, 112, 104, 112]

  function StripSuffix(path: bytes, suffix: bytes): bytes {
    if |suffix| <= |path| && path[|path| - |suffix|..] == suffix then path[..|path| - |suffix|] else path
  }

  /** The split list as configured: absent means `.php`, empty means none. */
  function Splits(split: Option<seq<bytes>>): seq<bytes> {
    match split case Some(entries) => entries case None => [DOT_PHP]
  }

  lemma SplitPosInRange(path: bytes, splits: seq<bytes>)
    ensures -1 <= SplitPos(path, splits) <= |path|
  {
    if splits != [] {
      var i, start := SplitFromIsFirst(path, splits);
    }
  }

  function SplitCgiPath(root: bytes, split: Option<seq<bytes>>, path: bytes): CgiPaths {
    var position := SplitPos(path, Splits(split));
    SplitPosInRange(path, Splits(split));
    var (docUri, pathInfo) := if position >= 0 then (path[..position], path[position..]) else ([], []);
    var scriptName := EnsureLeadingSlash(StripSuffix(path, pathInfo));
    CgiPaths(docUri, pathInfo, scriptName, PathJoin(root, scriptName))
  }

  lemma StripSuffixCuts(a: bytes, b: bytes)
    ensures StripSuffix(a + b, b) == a
  {
  }

  /** When a split point exists the path is cut there and nowhere else; when
      none exists the whole path names the script. */
  lemma SplitCgiPathIsACut(root: bytes, split: Option<seq<bytes>>, path: bytes)
    ensures var r := SplitCgiPath(root, split, path);
            var position := SplitPos(path, Splits(split));
            && (position >= 0 ==> r.docUri + r.pathInfo == path && |r.docUri| == position
                                  && r.scriptName == EnsureLeadingSlash(r.docUri))
            && (position < 0 ==> r.docUri == [] && r.pathInfo == [] && r.scriptName == EnsureLeadingSlash(path))
  {
    var position := SplitPos(path, Splits(split));
    SplitPosInRange(path, Splits(split));
    if position >= 0 {
      assert path == path[..position] + path[position..];
      StripSuffixCuts(path[..position], path[position..]);
    } else {
      assert path == path + [];
      StripSuffixCuts(path, []);
    }
  }

  /** The file to run lies under the root and its name is never empty. */
  lemma ScriptStaysUnderRoot(root: bytes, split: Option<seq<bytes>>, path: bytes)
    ensures var r := SplitCgiPath(root, split, path);
            && r.scriptFilename != []
            && Meaning(r.scriptFilename) == Meaning(root) + Meaning([SLASH] + r.scriptName)
            && DOTDOT !in Meaning([SLASH] + r.scriptName)
  {
    JoinIsExact(root, SplitCgiPath(root, split, path).scriptName);
  }

  // ---- The directory index --------------------------------------------------

  const INDEX_PHP: bytes := [105, 110, 100, 101, 120, 46, 112, 104, 112]

  function DirectoryIndex(path: bytes): bytes {
    if path != [] && path[|path| - 1] == SLASH && SplitPos(path, [DOT_PHP]) < 0 then path + INDEX_PHP else path
  }

  method ResolveDirectoryIndex(path: bytes) returns (resolved: bytes)
    ensures resolved == DirectoryIndex(path)
  {
    resolved := path;
    if path != [] && path[|path| - 1] == SLASH {
      var position := SplitPosition(path, [DOT_PHP]);
      if position < 0 {
        resolved := resolved + INDEX_PHP;
      }
    }
  }

  /** A match that ends inside `a` does not see what follows it. */
  lemma MatchInPrefix(a: bytes, b: bytes, split: bytes, start: nat)
    requires start + |split| <= |a|
    ensures MatchesAt(a + b, split, start) == MatchesAt(a, split, start)
  {
    assert (a + b)[start..start + |split|] == a[start..start + |split|];
  }

  /** A rewritten path holds `.php`, case-folded, once, at its end: none before
      the join, none across its slash, and none but the last after it. */
  lemma IndexMatchesOnce(path: bytes, start: nat)
    requires DirectoryIndex(path) != path
    ensures MatchesAt(DirectoryIndex(path), DOT_PHP, start) <==> start == |DirectoryIndex(path)| - |DOT_PHP|
  {
    var resolved, n := DirectoryIndex(path), |path|;
    var i, k := SplitFromIsFirst(path, [DOT_PHP]);
    assert NoMatch(path, [DOT_PHP][0]);
    if start + 4 <= n {
      MatchInPrefix(path, INDEX_PHP, DOT_PHP, start);
    } else if start < n {
      assert start + 4 <= |resolved| ==> resolved[start..start + 4][n - 1 - start] == SLASH;
    } else {
      assert start + 4 <= |resolved| ==> resolved[start..start + 4] == INDEX_PHP[start - n..start - n + 4];
      assert start + 4 <= |resolved| ==> resolved[start..start + 4][0] == INDEX_PHP[start - n];
      assert INDEX_PHP[5..9] == DOT_PHP;
    }
  }

  /** So the rewrite injects nothing: the whole rewritten path is the script and
      PATH_INFO is empty. A path that is not rewritten is left as it was. */
  lemma DirectoryIndexInjectsNothing(root: bytes, path: bytes)
    ensures var resolved := DirectoryIndex(path);
            var r := SplitCgiPath(root, None, resolved);
            resolved != path ==>
              r.docUri == resolved && r.pathInfo == [] && r.scriptName == EnsureLeadingSlash(resolved)
  {
    var resolved := DirectoryIndex(path);
    if resolved != path {
      var i, start := SplitFromIsFirst(resolved, [DOT_PHP]);
      IndexMatchesOnce(path, |resolved| - 4);
      IndexMatchesOnce(path, start);
      assert SplitFrom(resolved, [DOT_PHP]) == -1 ==> NoMatch(resolved, [DOT_PHP][0]);
      assert SplitPos(resolved, [DOT_PHP]) == |resolved|;
      SplitCgiPathIsACut(root, None, resolved);
      assert resolved[..|resolved|] == resolved;
    }
  }

  /** The script file the server's request handler attaches to a request. */
  function RequestScript(root: bytes, path: bytes): (script: bytes)
    ensures script != []
  {
    ScriptStaysUnderRoot(root, None, DirectoryIndex(path));
    SplitCgiPath(root, None, DirectoryIndex(path)).scriptFilename
  }
}
