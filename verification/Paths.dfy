/**
 Slash-separated paths: what the source does with `rstrip`, `startswith` and `split`, related to
 the sequence of a path's components.
 */
module Paths {
  /** `p.rstrip("/")` */
  function RStrip(p: string): (r: string)
    ensures r <= p && (r != "" ==> r[|r| - 1] != '/')
    ensures forall k :: |r| <= k < |p| ==> p[k] == '/'
  {
    if p != "" && p[|p| - 1] == '/' then RStrip(p[..|p| - 1]) else p
  }

  /** `posixpath.dirname` */
  function DirName(p: string): (d: string)
    ensures |d| <= |p| && (p != "" && p[|p| - 1] != '/' ==> |d| < |p|)
  {
    if p == "" then ""
    else if p[|p| - 1] == '/' then (if RStrip(p) == "" then p else RStrip(p))
    else DirName(p[..|p| - 1])
  }

  /** `p.split("/")` */
  function Split(p: string): (parts: seq<string>)
    ensures parts != []
  {
    if p == "" then [""]
    else if p[0] == '/' then [""] + Split(p[1..])
    else LongerFirst(p[0], Split(p[1..]))
  }

  function LongerFirst(c: char, parts: seq<string>): (r: seq<string>)
    requires parts != []
    ensures |r| == |parts| && r[1..] == parts[1..]
  {
    [[c] + parts[0]] + parts[1..]
  }

  /** `"/".join(parts)` */
  function Join(parts: seq<string>): string
    requires parts != []
  {
    if |parts| == 1 then parts[0] else parts[0] + "/" + Join(parts[1..])
  }

  /** `p` is the root itself or lies below it, at a component boundary. */
  predicate AtOrBelow(root: string, p: string) { p == root || root + "/" <= p }

  lemma {:induction false} SplitAtSlash(a: string, b: string)
    ensures Split(a + "/" + b) == Split(a) + Split(b)
  {
    var p := a + "/" + b;
    if a == "" {
      assert p[1..] == b;
    } else {
      SplitAtSlash(a[1..], b);
      var (xs, ys) := (Split(a[1..]), Split(b));
      assert p[1..] == a[1..] + "/" + b && p[0] == a[0];
      assert a[0] != '/' ==> LongerFirst(a[0], xs + ys) == LongerFirst(a[0], xs) + ys;
      assert [""] + (xs + ys) == ([""] + xs) + ys;
    }
  }

  lemma {:induction false} JoinSplit(p: string)
    ensures Join(Split(p)) == p
  {
    if p != "" {
      JoinSplit(p[1..]);
      var rest := Split(p[1..]);
      if p[0] == '/' {
        assert Split(p)[1..] == rest;
        assert [p[0]] + p[1..] == p;
      } else if |rest| > 1 {
        assert Split(p)[1..] == rest[1..];
        assert [p[0]] + p[1..] == p;
      }
    }
  }

  lemma {:induction false} JoinAppend(xs: seq<string>, ys: seq<string>)
    requires xs != [] && ys != []
    ensures Join(xs + ys) == Join(xs) + "/" + Join(ys)
  {
    assert (xs + ys)[1..] == xs[1..] + ys;
    if |xs| > 1 {
      JoinAppend(xs[1..], ys);
      assert Join(xs + ys) == xs[0] + "/" + (Join(xs[1..]) + "/" + Join(ys));
    }
  }

  /** The character test is a test on components: `tv` is above `tv/x` and not above `tvshows/x`. */
  lemma {:induction false} BelowIsComponentPrefix(root: string, p: string)
    ensures AtOrBelow(root, p) <==> Split(root) <= Split(p)
  {
    if root + "/" <= p {
      SplitAtSlash(root, p[|root| + 1..]);
      assert p == root + "/" + p[|root| + 1..];
    }
    if Split(root) <= Split(p) {
      JoinSplit(root);
      JoinSplit(p);
      var rest := Split(p)[|Split(root)|..];
      assert Split(p) == Split(root) + rest;
      if rest == [] {
        assert Split(p) == Split(root);
      } else {
        JoinAppend(Split(root), rest);
        assert p == root + "/" + Join(rest);
      }
    }
  }
}
