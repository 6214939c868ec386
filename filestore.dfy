/** The part of the host the extraction core changes: the backend-local
    filesystem, as a map from absolute path to what is there, and the log of
    calls the core makes into code it does not see (archive tools, the
    storage service's move and rescan). */
module FileStore {
  import Php

  datatype Kind = File | Dir

  type Tree = map<string, Kind>

  /** A call into code outside the core, in the order it was made. */
  datatype Call =
    | Exec(command: string)                                     // exec() of a shell command
    | ZipExtractTo(archive: string, destination: string)        // ZipArchive::extractTo
    | RarEntryExtract(archive: string, entry: string, destination: string)  // RarEntry::extract
    | Move(source: string, target: string)                      // Node::move
    | Scan(user: string, path: string)                          // Scanner::scan as `user`

  /** `p` lies strictly below the directory `dir`. */
  predicate Under(p: string, dir: string) {
    |dir| < |p| && p[..|dir|] == dir && p[|dir|] == '/'
  }

  predicate IsDir(t: Tree, p: string) {
    p in t && t[p] == Dir
  }

  /** The tree once the node at `p` is deleted together with everything
      below it; a missing node (NotFound) leaves the tree as it was. */
  function Evicted(t: Tree, p: string): (r: Tree)
    ensures p !in r
    ensures p in t ==> forall q :: q in r ==> !Under(q, p)
    ensures p !in t ==> r == t
    ensures forall q :: q in t && q != p && !Under(q, p) ==> q in r && r[q] == t[q]
    ensures r.Keys <= t.Keys
  {
    if p in t then map q | q in t && q != p && !Under(q, p) :: t[q] else t
  }

  /** `unlink($p)`: removes a file; on a directory or a missing path it fails
      and nothing changes. */
  function Unlinked(t: Tree, p: string): (r: Tree)
    ensures p in t && t[p] == File ==> p !in r
    ensures forall q :: q in t && q != p ==> q in r && r[q] == t[q]
    ensures forall q :: q in t && t[q] == Dir ==> q in r && r[q] == Dir
    ensures r.Keys <= t.Keys
  {
    if p in t && t[p] == File then t - {p} else t
  }

  /** The files below `root` whose base name the blacklist rejects. */
  function Victims(t: Tree, root: string, blacklisted: string -> bool): (r: set<string>)
    ensures r <= t.Keys
    ensures forall q :: q in r ==> t[q] == File && Under(q, root)
  {
    set q | q in t && t[q] == File && Under(q, root) && blacklisted(Php.Basename(q))
  }

  /** The tree once every blacklisted file below `root` is removed. */
  function Sanitized(t: Tree, root: string, blacklisted: string -> bool): (r: Tree)
    ensures forall q :: q in r && r[q] == File && Under(q, root) ==> !blacklisted(Php.Basename(q))
    ensures forall q :: q in t && q !in Victims(t, root, blacklisted) ==> q in r && r[q] == t[q]
    ensures r.Keys <= t.Keys
  {
    t - Victims(t, root, blacklisted)
  }

  /** The tree after each call in turn has written what the host says it
      writes. */
  function Applied(t: Tree, calls: seq<Call>, writes: Call -> Tree): Tree
  {
    if calls == [] then t
    else Applied(t, calls[..|calls| - 1], writes) + writes(calls[|calls| - 1])
  }

  /** Evicting twice is evicting once: a second request for the same staging
      folder finds nothing of the first run to remove. */
  lemma EvictedIdempotent(t: Tree, p: string)
    ensures Evicted(Evicted(t, p), p) == Evicted(t, p)
  {
  }

  /** Sanitising twice is sanitising once. */
  lemma SanitizedIdempotent(t: Tree, root: string, blacklisted: string -> bool)
    ensures Sanitized(Sanitized(t, root, blacklisted), root, blacklisted) == Sanitized(t, root, blacklisted)
  {
    var s := Sanitized(t, root, blacklisted);
    assert Victims(s, root, blacklisted) == {};
  }

  /** The local filesystem and the log of outside calls. */
  class Store {
    var entries: Tree
    var log: seq<Call>

    constructor (entries: Tree)
      ensures this.entries == entries && log == []
    {
      this.entries := entries;
      log := [];
    }

    /** `newFolder($p)` */
    method NewFolder(p: string)
      modifies this
      ensures entries == old(entries)[p := Dir] && log == old(log)
    {
      entries := entries[p := Dir];
    }

    /** `get($p)->delete()`, with NotFound swallowed. */
    method Delete(p: string)
      modifies this
      ensures entries == Evicted(old(entries), p) && log == old(log)
    {
      if p in entries {
        entries := map q | q in entries && q != p && !Under(q, p) :: entries[q];
      }
    }

    /** `unlink($p)` */
    method Unlink(p: string)
      modifies this
      ensures entries == Unlinked(old(entries), p) && log == old(log)
    {
      if p in entries && entries[p] == File {
        entries := entries - {p};
      }
    }

    /** Carries out the backend calls in order: each is logged and writes
        what `writes` says into the tree. */
    method Perform(calls: seq<Call>, writes: Call -> Tree)
      modifies this
      ensures entries == Applied(old(entries), calls, writes)
      ensures log == old(log) + calls
    {
      var i := 0;
      while i < |calls|
        invariant 0 <= i <= |calls|
        invariant entries == Applied(old(entries), calls[..i], writes)
        invariant log == old(log) + calls[..i]
      {
        assert calls[..i + 1][..i] == calls[..i];
        entries := entries + writes(calls[i]);
        log := log + [calls[i]];
        i := i + 1;
      }
      assert calls[..i] == calls;
    }

    /** Logs a call that does not change the local tree as the model sees it. */
    method Notify(c: Call)
      modifies this
      ensures log == old(log) + [c] && entries == old(entries)
    {
      log := log + [c];
    }
  }
}
