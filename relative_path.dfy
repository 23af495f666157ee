/** The relative path resolver of `getRelativePath`: choose a workspace root as
    the base, then hand base and file to the platform's `path.relative`, which
    is a parameter here (`relative(from, to)`). The roots are the `fsPath`s of
    the open workspace folders, in the host's order; an absent folder list is
    the empty sequence. */
module RelativePath {
  import opened Wrappers

  /** `filePath.startsWith(root)`: a raw prefix test on characters, with no
      regard for path segments. */
  predicate StartsWith(filePath: string, root: string)
  {
    root <= filePath
  }

  /** Index of the first root that is a prefix of the file path, if any. */
  function FirstPrefix(roots: seq<string>, filePath: string): (k: Option<nat>)
    ensures k.Some? ==> k.value < |roots| && StartsWith(filePath, roots[k.value])
    ensures k.Some? ==> forall j :: 0 <= j < k.value ==> !StartsWith(filePath, roots[j])
    ensures k.None? <==> forall j :: 0 <= j < |roots| ==> !StartsWith(filePath, roots[j])
  {
    if roots == [] then None
    else if StartsWith(filePath, roots[0]) then Some(0)
    else
      match FirstPrefix(roots[1..], filePath)
      case None => None
      case Some(k) => Some(k + 1)
  }

  /** The base `getRelativePath` measures from: the first root that prefixes
      the file path, else the first root; none when there is no root. */
  function SelectBase(roots: seq<string>, filePath: string): (b: Option<string>)
    ensures b.None? <==> roots == []
    ensures b.Some? ==> b.value in roots
  {
    if roots == [] then None
    else
      match FirstPrefix(roots, filePath)
      case Some(k) => Some(roots[k])
      case None => Some(roots[0])
  }

  /** What `getRelativePath(filePath)` returns for the given roots. */
  function RelativeTo(filePath: string, roots: seq<string>, relative: (string, string) -> string): (r: Option<string>)
    ensures r.None? <==> roots == []
    ensures r.Some? ==> exists i :: 0 <= i < |roots| && r.value == relative(roots[i], filePath)
  {
    match SelectBase(roots, filePath)
    case None => None
    case Some(base) => Some(relative(base, filePath))
  }

  /** `getRelativePath`: the scan of the workspace folders with its early
      return, and the fallback to the first folder. */
  method GetRelativePath(filePath: string, roots: seq<string>, relative: (string, string) -> string)
    returns (r: Option<string>)
    ensures r == RelativeTo(filePath, roots, relative)
  {
    if |roots| == 0 {
      return None;
    }
    for i := 0 to |roots|
      invariant forall j :: 0 <= j < i ==> !StartsWith(filePath, roots[j])
    {
      if StartsWith(filePath, roots[i]) {
        return Some(relative(roots[i], filePath));
      }
    }
    return Some(relative(roots[0], filePath));
  }

  /** The first root in list order that prefixes the file path is the base. */
  lemma FirstMatchIsBase(roots: seq<string>, filePath: string, k: nat)
    requires k < |roots| && StartsWith(filePath, roots[k])
    requires forall j :: 0 <= j < k ==> !StartsWith(filePath, roots[j])
    ensures SelectBase(roots, filePath) == Some(roots[k])
  {
  }

  /** When no root prefixes the file path, the first root is the base. */
  lemma FallbackToFirstRoot(roots: seq<string>, filePath: string)
    requires roots != []
    requires forall j :: 0 <= j < |roots| ==> !StartsWith(filePath, roots[j])
    ensures SelectBase(roots, filePath) == Some(roots[0])
  {
  }

  /** The base is always either a prefix of the file or, failing any prefix,
      the first root. */
  lemma BaseIsPrefixOrFirst(roots: seq<string>, filePath: string)
    requires roots != []
    ensures StartsWith(filePath, SelectBase(roots, filePath).value)
            || (SelectBase(roots, filePath) == Some(roots[0])
                && forall j :: 0 <= j < |roots| ==> !StartsWith(filePath, roots[j]))
  {
  }

  /** The prefix test is not segment-aware: the root `/a/b` is chosen for
      the file `/a/bc/x.txt`, and it wins over `/a/bc` when listed first. */
  lemma RawPrefixNotSegmentAware()
    ensures SelectBase(["/a/b"], "/a/bc/x.txt") == Some("/a/b")
    ensures SelectBase(["/a/b", "/a/bc"], "/a/bc/x.txt") == Some("/a/b")
  {
    assert StartsWith("/a/bc/x.txt", "/a/b");
    FirstMatchIsBase(["/a/b"], "/a/bc/x.txt", 0);
    FirstMatchIsBase(["/a/b", "/a/bc"], "/a/bc/x.txt", 0);
  }

  /** The whole result of `getRelativePath`: none without roots; else
      `relative` from the first root that prefixes the file; else `relative`
      from the first root. */
  lemma RelativeToResult(filePath: string, roots: seq<string>, relative: (string, string) -> string)
    ensures roots == [] ==> RelativeTo(filePath, roots, relative) == None
    ensures forall k :: 0 <= k < |roots| && StartsWith(filePath, roots[k])
                        && (forall j :: 0 <= j < k ==> !StartsWith(filePath, roots[j]))
                        ==> RelativeTo(filePath, roots, relative) == Some(relative(roots[k], filePath))
    ensures roots != [] && (forall j :: 0 <= j < |roots| ==> !StartsWith(filePath, roots[j]))
            ==> RelativeTo(filePath, roots, relative) == Some(relative(roots[0], filePath))
  {
    forall k | 0 <= k < |roots| && StartsWith(filePath, roots[k])
               && (forall j :: 0 <= j < k ==> !StartsWith(filePath, roots[j]))
      ensures RelativeTo(filePath, roots, relative) == Some(relative(roots[k], filePath))
    {
      FirstMatchIsBase(roots, filePath, k);
    }
  }
}
