// The headers a file needs (src/context_management/header_context.rs).

module HeaderContexts {
  import I = IncludeDeclarations

  /** A header to include. The source stores `IncludeType::Header`, which its enum lacks, for a system header. */
  datatype Header = Header(path: string, incType: I.IncludeType)

  /** Some header has this path. */
  predicate HasPath(headers: seq<Header>, path: string) {
    exists i :: 0 <= i < |headers| && headers[i].path == path
  }

  /** No two headers share a path. */
  predicate DistinctPaths(headers: seq<Header>) {
    forall i, j :: 0 <= i < j < |headers| ==> headers[i].path != headers[j].path
  }

  /** The list after `add_header`: unchanged when the path is known, else the new header at the end. */
  function WithHeader(headers: seq<Header>, path: string, isSystem: bool): seq<Header> {
    if HasPath(headers, path) then headers
    else headers + [Header(path, if isSystem then I.System else I.Local)]
  }

  /**
   * Adding keeps paths distinct, puts the path in the list, keeps every
   * earlier header in its place, and adding the same path again changes nothing.
   */
  lemma WithHeaderKeepsDistinct(headers: seq<Header>, path: string, isSystem: bool)
    requires DistinctPaths(headers)
    ensures var r := WithHeader(headers, path, isSystem);
      DistinctPaths(r) && HasPath(r, path) && r[..|headers|] == headers &&
      WithHeader(r, path, isSystem) == r &&
      (|r| == |headers| <==> HasPath(headers, path))
  {
    var r := WithHeader(headers, path, isSystem);
    if !HasPath(headers, path) {
      assert r[|headers|].path == path;
    }
  }

  /** `HeaderContext`: the header list of one file. */
  class HeaderContext {
    var headers: seq<Header>

    ghost predicate Valid()
      reads this
    {
      DistinctPaths(headers)
    }

    constructor ()
      ensures headers == [] && Valid()
    {
      headers := [];
    }

    /** `add_header`: appends the header unless its path is already listed. */
    method AddHeader(path: string, isSystem: bool)
      requires Valid()
      modifies this
      ensures Valid()
      ensures headers == WithHeader(old(headers), path, isSystem)
    {
      var known := Contains(path);
      if !known {
        headers := headers + [Header(path, if isSystem then I.System else I.Local)];
      }
      WithHeaderKeepsDistinct(old(headers), path, isSystem);
    }

    /** `contains`: a scan for the path. */
    method Contains(path: string) returns (b: bool)
      ensures b <==> HasPath(headers, path)
    {
      var i := 0;
      while i < |headers|
        invariant 0 <= i <= |headers|
        invariant forall k :: 0 <= k < i ==> headers[k].path != path
      {
        if headers[i].path == path {
          return true;
        }
        i := i + 1;
      }
      return false;
    }

    function Len(): nat
      reads this
    {
      |headers|
    }

    /** `is_empty`: the source tests `len() <= 0`. */
    predicate IsEmpty()
      reads this
      ensures IsEmpty() <==> headers == []
    {
      Len() <= 0
    }
  }
}
