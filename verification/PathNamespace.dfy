/**
 Paths in the *arr's own namespace: what a notify sends, and the root a queue record reveals.
 */
module PathNamespace {
  import opened Common
  import opened Paths
  import opened Preflight

  /** `final_local_path` with one root's prefix exchanged, when it is under that root. */
  function Rebase(path: string, root: string, visible: string): Option<string> {
    if root != "" && AtOrBelow(RStrip(root), path)
    then Some(RStrip(visible) + path[|RStrip(root)|..]) else None
  }

  /** `translate_to_arr_namespace` */
  function Translate(path: string, localPath: string, staging: Option<string>, visible: Option<string>): string {
    if visible.None? then path
    else
      var staged := if staging.Some? then Rebase(path, staging.value, visible.value) else None;
      var local := Rebase(path, localPath, visible.value);
      if staged.Some? then staged.value else if local.Some? then local.value else path
  }

  /** The root whose prefix is exchanged, if either is. */
  function Base(path: string, localPath: string, staging: Option<string>): Option<string> {
    if staging.Some? && Rebase(path, staging.value, "").Some? then staging
    else if Rebase(path, localPath, "").Some? then Some(localPath)
    else None
  }

  /** Exchanging one prefix for another at a component boundary exchanges just its components. */
  lemma ExchangeKeepsTheRest(path: string, root: string, seen: string)
    requires AtOrBelow(root, path)
    ensures Split(root) <= Split(path)
    ensures Split(seen + path[|root|..]) == Split(seen) + Split(path)[|Split(root)|..]
  {
    BelowIsComponentPrefix(root, path);
    if path == root {
      assert seen + path[|root|..] == seen;
    } else {
      var rest := path[|root| + 1..];
      assert path == root + "/" + rest;
      SplitAtSlash(root, rest);
      assert seen + path[|root|..] == seen + "/" + rest;
      SplitAtSlash(seen, rest);
    }
  }

  /** Exactly the root's components are exchanged, those of the staging root if the path is under it, even where
      that lies under the local root too: below it the path reads the same in both namespaces. */
  lemma TranslationKeepsTheRest(path: string, localPath: string, staging: Option<string>, visible: string)
    ensures match Base(path, localPath, staging)
            case None => Translate(path, localPath, staging, Some(visible)) == path
            case Some(root) =>
              && Split(RStrip(root)) <= Split(path)
              && Split(Translate(path, localPath, staging, Some(visible)))
                 == Split(RStrip(visible)) + Split(path)[|Split(RStrip(root))|..]
    ensures staging.Some? && staging.value != "" && AtOrBelow(RStrip(staging.value), path)
            ==> Base(path, localPath, staging) == staging
  {
    var base := Base(path, localPath, staging);
    if base.Some? {
      ExchangeKeepsTheRest(path, RStrip(base.value), RStrip(visible));
    }
  }

  /** Exchanging the roots the other way round undoes the translation. */
  lemma TranslationComesBack(path: string, localPath: string, visible: string)
    requires visible != "" && localPath != "" && AtOrBelow(RStrip(localPath), path)
    ensures Translate(Translate(path, localPath, None, Some(visible)), visible, None, Some(localPath)) == path
  {
  }

  /** What a notify sends lies where attribution would look for the queue's own records. */
  lemma TranslatedPathIsVisible(path: string, localPath: string, staging: Option<string>, visible: string)
    requires RStrip(visible) != "" && Base(path, localPath, staging).Some?
    ensures VisiblePathContains(visible, Translate(path, localPath, staging, Some(visible)))
  {
    TranslationKeepsTheRest(path, localPath, staging, visible);
    var seen := RStrip(visible);
    var sent := Translate(path, localPath, staging, Some(visible));
    BelowIsComponentPrefix(seen, sent);
    StrippingKeepsBelow(seen, sent);
  }

  lemma {:induction false} StrippingKeepsBelow(root: string, p: string)
    requires root != "" && root[|root| - 1] != '/' && AtOrBelow(root, p)
    ensures AtOrBelow(root, RStrip(p))
    decreases |p|
  {
    if p[|p| - 1] == '/' {
      StrippingKeepsBelow(root, p[..|p| - 1]);
    }
  }

  // --- The root a record reveals ------------------------------------------------------------------------

  /** `_derive_arr_root` */
  function DeriveArrRoot(outputPath: string, itemName: string): string {
    var p := RStrip(outputPath);
    if HasSuffix(p, "/" + itemName) then p[..|p| - 1 - |itemName|] else DirName(p)
  }

  predicate HasSuffix(p: string, suffix: string) { |suffix| <= |p| && p[|p| - |suffix|..] == suffix }

  /** A record for something directly below a root reveals the root. */
  lemma ChildRevealsItsRoot(root: string, name: string)
    requires name != "" && name[|name| - 1] != '/'
    ensures DeriveArrRoot(root + "/" + name, name) == root
  {
  }

  /** So does one for a file of another name there: the directory it lies in is taken. */
  lemma AnyChildRevealsItsRoot(root: string, file: string, name: string)
    requires root != "" && root[|root| - 1] != '/' && file != "" && '/' !in file
    requires !HasSuffix(root + "/" + file, "/" + name)
    ensures DeriveArrRoot(root + "/" + file, name) == root
  {
    assert RStrip(root + "/" + file) == root + "/" + file;
    DirNameOfChild(root, file);
  }

  lemma {:induction false} DirNameOfChild(root: string, file: string)
    requires root != "" && root[|root| - 1] != '/' && '/' !in file
    ensures DirName(root + "/" + file) == root
    decreases |file|
  {
    var p := root + "/" + file;
    if file == "" {
      assert p[..|p| - 1] == root && RStrip(root) == root;
    } else {
      assert p[..|p| - 1] == root + "/" + file[..|file| - 1] && p[|p| - 1] == file[|file| - 1];
      DirNameOfChild(root, file[..|file| - 1]);
    }
  }

  lemma ChildUnderEitherRoot(root: string, seen: string, name: string)
    ensures AtOrBelow(root, root + "/" + name)
    ensures seen + (root + "/" + name)[|root|..] == seen + "/" + name
  {
  }

  /** An item pushed from the top of a queue reveals that queue's visible root when it comes back. */
  lemma PushedItemRevealsItsRoot(path: string, name: string, localPath: string, visible: string)
    requires localPath != "" && name != "" && name[|name| - 1] != '/' && path == RStrip(localPath) + "/" + name
    ensures DeriveArrRoot(Translate(path, localPath, None, Some(visible)), name) == RStrip(visible)
  {
    ChildUnderEitherRoot(RStrip(localPath), RStrip(visible), name);
    ChildRevealsItsRoot(RStrip(visible), name);
  }
}
