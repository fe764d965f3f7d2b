/**
 Browsing for a directory: when the one asked for cannot be listed, walk up to the nearest one that
 can, and on the seedbox start over from the home directory once.
 */
module PathBrowse {
  import opened Common
  import opened Paths

  /** `_parent_of(path) or "/"` */
  function Up(path: string): (parent: string)
    ensures parent == "/" || |parent| < |path|
  {
    if path == "/" then "/"
    else if DirName(RStrip(path)) == "" then "/"
    else DirName(RStrip(path))
  }

  function Height(path: string): nat { if path == "/" then 0 else 1 + |path| }

  /** The directories a walk from `path` tries, in order. */
  function Chain(path: string): (tried: seq<string>)
    ensures tried != [] && tried[0] == path && tried[|tried| - 1] == "/"
    decreases Height(path)
  {
    if path == "/" then ["/"] else [path] + Chain(Up(path))
  }

  /** The first directory of the list that can be listed. */
  function FirstListable(tried: seq<string>, listable: string -> bool): Option<string> {
    if tried == [] then None
    else if listable(tried[0]) then Some(tried[0])
    else FirstListable(tried[1..], listable)
  }

  lemma {:induction false} NoneIsListable(tried: seq<string>, listable: string -> bool)
    ensures FirstListable(tried, listable).None? <==> forall d :: d in tried ==> !listable(d)
  {
    if tried != [] {
      NoneIsListable(tried[1..], listable);
      assert tried == [tried[0]] + tried[1..];
    }
  }

  lemma {:induction false} WhereItIs(tried: seq<string>, listable: string -> bool) returns (k: nat)
    requires FirstListable(tried, listable).Some?
    ensures k < |tried| && FirstListable(tried, listable) == Some(tried[k]) && listable(tried[k])
    ensures forall j :: 0 <= j < k ==> !listable(tried[j])
  {
    if listable(tried[0]) {
      k := 0;
    } else {
      var n := WhereItIs(tried[1..], listable);
      k := n + 1;
    }
  }

  datatype Browse = Browse(path: string, parent: Option<string>, fallbackFrom: Option<string>)

  function ParentOf(path: string): Option<string> { if path == "/" then None else Some(Up(path)) }

  function Landed(path: string, base: string, requested: string): Browse {
    Browse(path, ParentOf(path), if path != base && requested != "" then Some(requested) else None)
  }

  predicate Absolute(path: string) { path != "" && path[0] == '/' }

  /** Where a walk that tries these directories ends: at the first that can be listed, saying what is above it, and
      what was asked for if that is another. */
  ghost predicate EndsAt(r: Option<Browse>, tried: seq<string>, base: string, requested: string,
                         listable: string -> bool)
  {
    match r
    case None => forall d :: d in tried ==> !listable(d)
    case Some(b) =>
      && (exists k :: 0 <= k < |tried| && tried[k] == b.path && listable(b.path)
                      && forall j :: 0 <= j < k ==> !listable(tried[j]))
      && (if b.path == "/" then b.parent == None else |Chain(b.path)| > 1 && b.parent == Some(Chain(b.path)[1]))
      && b.fallbackFrom == (if b.path != base && requested != "" then Some(requested) else None)
  }

  lemma LandedEndsAt(tried: seq<string>, base: string, requested: string, listable: string -> bool)
    ensures EndsAt(match FirstListable(tried, listable)
                   case None => None
                   case Some(d) => Some(Landed(d, base, requested)),
                   tried, base, requested, listable)
  {
    NoneIsListable(tried, listable);
    if FirstListable(tried, listable).Some? {
      var k := WhereItIs(tried, listable);
      var d := tried[k];
      assert d != "/" ==> Chain(d) == [d] + Chain(Up(d)) && Chain(Up(d))[0] == Up(d);
    }
  }

  /** `resolve_local_dir`, of a stripped request. */
  method ResolveLocalDir(requested: string, normalize: string -> string, listable: string -> bool)
    returns (r: Option<Browse>)
    ensures !Absolute(requested) ==> r == if listable("/") then Some(Browse("/", None, None)) else None
    ensures Absolute(requested) ==>
              EndsAt(r, Chain(normalize(requested)), normalize(requested), requested, listable)
  {
    if !Absolute(requested) {
      return if listable("/") then Some(Browse("/", None, None)) else None;
    }
    var base := normalize(requested);
    var current := base;
    LandedEndsAt(Chain(base), base, requested, listable);
    while !listable(current)
      invariant FirstListable(Chain(current), listable) == FirstListable(Chain(base), listable)
      decreases Height(current)
    {
      if current == "/" {
        return None;
      }
      current := Up(current);
    }
    r := Some(Landed(current, base, requested));
  }

  /** Everything a remote walk may try: up from the base, then up from home unless home is the root. */
  function RemoteChain(base: string, home: string): seq<string> {
    Chain(base) + (if home == "/" then [] else Chain(home))
  }

  lemma OneUp(d: string, home: string, listable: string -> bool)
    requires !listable(d) && d != "/"
    ensures FirstListable(Chain(d), listable) == FirstListable(Chain(Up(d)), listable)
    ensures FirstListable(RemoteChain(d, home), listable) == FirstListable(RemoteChain(Up(d), home), listable)
  {
    ChainThenHome(d, home);
  }

  lemma ChainThenHome(d: string, home: string)
    requires d != "/"
    ensures RemoteChain(d, home) == [d] + RemoteChain(Up(d), home)
  {
  }

  /** `resolve_remote_dir`, once the home directory is known. It starts where the server says the request leads,
      from an absolute request as it is if the server does not say, and else from home. */
  method ResolveRemoteDir(requested: string, resolved: Option<string>, home: string, listable: string -> bool)
    returns (r: Option<Browse>, ghost base: string)
    ensures requested != "" && resolved.Some? ==> base == resolved.value
    ensures requested != "" && resolved.None? && requested[0] == '/' ==> base == requested
    ensures requested == "" || (resolved.None? && requested[0] != '/') ==> base == home
    ensures EndsAt(r, Chain(base) + (if home == "/" then [] else Chain(home)), base, requested, listable)
  {
    var start := home;
    if requested != "" {
      if resolved.Some? {
        start := resolved.value;
      } else if Absolute(requested) {
        start := requested;
      }
    }
    base := start;
    LandedEndsAt(RemoteChain(start, home), start, requested, listable);
    var current, homeTried := start, false;
    while !listable(current)
      invariant FirstListable(RemoteChain(start, home), listable)
             == FirstListable(if homeTried then Chain(current) else RemoteChain(current, home), listable)
      decreases !homeTried, Height(current)
    {
      if current == "/" {
        if !homeTried && home != "/" {
          homeTried, current := true, home;
        } else {
          r := None;
          return;
        }
      } else {
        OneUp(current, home, listable);
        current := Up(current);
      }
    }
    r := Some(Landed(current, start, requested));
  }

  // --- What the chain is ----------------------------------------------------------------------------------------

  /** The first `n` characters are slashes. */
  predicate Slashes(p: string, n: nat)
    requires n <= |p|
  {
    forall i :: 0 <= i < n ==> p[i] == '/'
  }

  /** A component of `p` ends at `n`, or its leading slashes do. */
  predicate CutAt(p: string, n: nat) {
    0 < n < |p| && if Slashes(p, n) then p[n] != '/' else p[n - 1] != '/' && p[n] == '/'
  }

  /** What `path`, less its trailing slashes, reads up to the end of some component, or its leading slashes. */
  predicate Cut(a: string, path: string) { a <= RStrip(path) && CutAt(RStrip(path), |a|) }

  /** The path itself, what it reads up to some component, and the root. */
  predicate Ancestor(a: string, path: string) { a == path || a == "/" || Cut(a, path) }

  lemma {:induction false} DirNameCuts(p: string, k: nat)
    requires k < |p| && p[k] == '/' && forall i :: k < i < |p| ==> p[i] != '/'
    ensures DirName(p) == if Slashes(p, k + 1) then p[..k + 1] else RStrip(p[..k + 1])
    decreases |p|
  {
    if k < |p| - 1 {
      DirNameCuts(p[..|p| - 1], k);
      assert p[..|p| - 1][..k + 1] == p[..k + 1];
    } else {
      assert p[..k + 1] == p;
    }
  }

  lemma {:induction false} NoSlashNoDirName(p: string)
    requires forall i :: 0 <= i < |p| ==> p[i] != '/'
    ensures DirName(p) == ""
  {
    if p != "" {
      NoSlashNoDirName(p[..|p| - 1]);
    }
  }

  /** Where the last slash is, if there is one. */
  lemma {:induction false} LastSlash(p: string) returns (k: int)
    ensures -1 <= k < |p| && (k >= 0 ==> p[k] == '/') && forall i :: k < i < |p| ==> p[i] != '/'
    decreases |p|
  {
    if p == "" || p[|p| - 1] == '/' {
      k := |p| - 1;
    } else {
      k := LastSlash(p[..|p| - 1]);
    }
  }

  /** Up to its last slash the path is slashes only: its one cut is where they end. */
  lemma CutsOfLeadingSlashes(p: string, k: nat, n: nat)
    requires k + 1 < |p| && Slashes(p, k + 1) && forall i :: k < i < |p| ==> p[i] != '/'
    ensures CutAt(p, n) <==> n == k + 1
  {
    if n > k + 1 && n < |p| {
      assert p[k + 1] != '/' && !Slashes(p, n);
    }
  }

  /** Otherwise its cuts are where the last run of slashes begins, and those before. */
  lemma CutsBelow(p: string, k: nat, m: nat, n: nat)
    requires k + 1 < |p| && forall i :: k < i < |p| ==> p[i] != '/'
    requires 0 < m <= k && p[m - 1] != '/' && forall i :: m <= i <= k ==> p[i] == '/'
    ensures CutAt(p, n) <==> n == m || CutAt(p[..m], n)
  {
    if n < m {
      assert Slashes(p[..m], n) == Slashes(p, n);
    } else if n < |p| {
      assert !Slashes(p, n);
    }
  }

  /** A parent other than the root is the highest cut of its path, and the cuts below it are its own. */
  lemma CutsGoUp(path: string, n: nat)
    requires path != "/"
    ensures var p := RStrip(path);
            if Up(path) == "/" then CutAt(p, n) ==> n == 1 && p[0] == '/'
            else Up(path) <= p && (CutAt(p, n) <==> n == |Up(path)| || CutAt(RStrip(Up(path)), n))
  {
    var p := RStrip(path);
    var k := LastSlash(p);
    if k < 0 {
      NoSlashNoDirName(p);
      assert n < |p| ==> p[0] != '/' && p[n] != '/';
    } else {
      DirNameCuts(p, k);
      if Slashes(p, k + 1) {
        CutsOfLeadingSlashes(p, k, n);
      } else {
        CutsUnderDirectory(p, k, n);
      }
    }
  }

  lemma CutsUnderDirectory(p: string, k: nat, n: nat)
    requires k + 1 < |p| && p[k] == '/' && (forall i :: k < i < |p| ==> p[i] != '/') && !Slashes(p, k + 1)
    ensures var up := RStrip(p[..k + 1]);
            up != "" && up != "/" && up <= p && RStrip(up) == up && (CutAt(p, n) <==> n == |up| || CutAt(up, n))
  {
    var m := |RStrip(p[..k + 1])|;
    assert forall i :: m <= i <= k ==> p[..k + 1][i] == p[i];
    assert p[..m] == RStrip(p[..k + 1]);
    CutsBelow(p, k, m, n);
  }

  /** A walk tries exactly the path, what it reads up to each of its components, and the root. */
  lemma {:induction false} ChainIsTheAncestors(path: string, a: string)
    ensures a in Chain(path) <==> Ancestor(a, path)
    decreases Height(path)
  {
    if path != "/" {
      ChainIsTheAncestors(Up(path), a);
      CutsGoUp(path, |a|);
      var (p, up) := (RStrip(path), Up(path));
      if up == "/" {
        assert Cut(a, path) ==> a == p[..1] == "/";
      } else if up <= p {
        assert RStrip(up) <= up;
        assert a <= p && |a| <= |up| ==> a <= up;
      }
    } else {
    }
  }

  /** For a path with no empty component that is the same as being above it at a component boundary. */
  lemma AncestorsByComponent(path: string, a: string)
    requires Absolute(path) && path != "/" && path[|path| - 1] != '/'
    requires forall i :: 0 <= i < |path| - 1 ==> path[i] != '/' || path[i + 1] != '/'
    ensures Ancestor(a, path) <==> a == "/" || (a != "" && AtOrBelow(a, path))
  {
    assert RStrip(path) == path;
    if a != "" && a <= path && |a| < |path| {
      if Slashes(path, |a|) {
        assert path[0] != '/' || path[1] != '/' || |a| == 1;
      } else if path[|a|] == '/' {
        assert path[|a| - 1] != '/';
      }
    }
  }

  lemma {:induction false} ChainGetsShorter(p: string, i: nat, j: nat)
    requires i < j < |Chain(p)|
    ensures Height(Chain(p)[j]) < Height(Chain(p)[i])
    decreases Height(p)
  {
    if p != "/" {
      if i > 0 {
        ChainGetsShorter(Up(p), i - 1, j - 1);
      } else if j > 1 {
        ChainGetsShorter(Up(p), 0, j - 1);
      }
    }
  }

  /** What is above a directory is the nearest of its other ancestors. */
  lemma ParentIsNearest(path: string, a: string)
    requires path != "/" && Ancestor(a, path) && a != path
    ensures Ancestor(Up(path), path) && Height(a) <= Height(Up(path)) < Height(path)
    ensures Chain(path)[1] == Up(path)
  {
    ChainIsTheAncestors(path, a);
    ChainIsTheAncestors(path, Up(path));
    assert Chain(path) == [path] + Chain(Up(path)) && Chain(Up(path))[0] == Up(path);
    var j :| 0 <= j < |Chain(path)| && Chain(path)[j] == a;
    if j > 1 {
      ChainGetsShorter(path, 1, j);
    }
    assert Chain(path)[1] in Chain(path);
  }

  /** Where a walk ends, no listable ancestor is closer; it fails only when none is listable. */
  lemma WalkFindsTheNearest(p: string, listable: string -> bool, a: string)
    requires Ancestor(a, p) && listable(a)
    ensures var r := FirstListable(Chain(p), listable);
            r.Some? && Ancestor(r.value, p) && listable(r.value) && Height(a) <= Height(r.value)
  {
    ChainIsTheAncestors(p, a);
    NoneIsListable(Chain(p), listable);
    var j :| 0 <= j < |Chain(p)| && Chain(p)[j] == a;
    var k := WhereItIs(Chain(p), listable);
    ChainIsTheAncestors(p, Chain(p)[k]);
    if k < j {
      ChainGetsShorter(p, k, j);
    }
  }

  lemma {:induction false} FirstOfBoth(a: seq<string>, b: seq<string>, listable: string -> bool)
    ensures FirstListable(a + b, listable)
         == if FirstListable(a, listable).Some? then FirstListable(a, listable) else FirstListable(b, listable)
  {
    if a == [] {
      assert a + b == b;
    } else {
      assert (a + b)[1..] == a[1..] + b;
      FirstOfBoth(a[1..], b, listable);
    }
  }

  lemma FailsOnlyWhenAllDo(p: string, listable: string -> bool)
    ensures FirstListable(Chain(p), listable).None? <==> forall a :: Ancestor(a, p) ==> !listable(a)
  {
    NoneIsListable(Chain(p), listable);
    forall a
      ensures a in Chain(p) <==> Ancestor(a, p)
    {
      ChainIsTheAncestors(p, a);
    }
  }

  /** A remote walk fails only when nothing up from the request and nothing up from home can be listed; and
      it leaves the request's own ancestors only when none of those can. */
  lemma RemoteFailsOnlyWhenAllDo(base: string, home: string, listable: string -> bool)
    ensures FirstListable(RemoteChain(base, home), listable).None?
            <==> forall a :: Ancestor(a, base) || Ancestor(a, home) ==> !listable(a)
    ensures (exists a :: Ancestor(a, base) && listable(a))
            ==> FirstListable(RemoteChain(base, home), listable) == FirstListable(Chain(base), listable)
  {
    FirstOfBoth(Chain(base), if home == "/" then [] else Chain(home), listable);
    FailsOnlyWhenAllDo(base, listable);
    FailsOnlyWhenAllDo(home, listable);
    assert Ancestor("/", base) && (home == "/" ==> forall a :: Ancestor(a, home) ==> a == "/");
  }
}
