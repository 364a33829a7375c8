/**
 Creating a directory with all its ancestors, on a file system where mkdir needs the parent to be a
 directory, may be refused, and reports names that exist already.
 */
module Directories {
  import opened Types

  /** A place in the directory tree: the names on the way to it. */
  datatype Place = Place(absolute: bool, names: seq<string>)

  datatype MkdirResult = Created | Exists | Failed

  function LastSlash(s: string): (k: Option<nat>)
    ensures k.Some? ==> k.value < |s| && s[k.value] == '/' && forall i :: k.value < i < |s| ==> s[i] != '/'
    ensures k.None? ==> forall i :: 0 <= i < |s| ==> s[i] != '/'
  {
    if |s| == 0 then None
    else if s[|s| - 1] == '/' then Some(|s| - 1)
    else LastSlash(s[..|s| - 1])
  }

  /** The names of a path; repeated and trailing slashes add none. */
  function Names(path: string): seq<string>
    decreases |path|
  {
    match LastSlash(path)
    case None => if path == "" then [] else [path]
    case Some(k) => Names(path[..k]) + (if k + 1 == |path| then [] else [path[k + 1..]])
  }

  function Resolve(path: string): Place {
    Place(path != "" && path[0] == '/', Names(path))
  }

  /** The first `k` names of `place`. */
  function Ancestor(place: Place, k: nat): Place
    requires k <= |place.names|
  {
    Place(place.absolute, place.names[..k])
  }

  predicate IsDir(dirs: set<Place>, p: Place) {
    p.names == [] || p in dirs
  }

  /** The roots are directories, and so is what anything lies in; files are no directories. */
  ghost predicate IsTree(dirs: set<Place>, files: set<Place>) {
    && (forall p :: p in dirs || p in files ==> |p.names| > 0 && IsDir(dirs, Ancestor(p, |p.names| - 1)))
    && dirs * files == {}
  }

  function MkdirOutcome(dirs: set<Place>, files: set<Place>, refused: set<Place>, p: Place): MkdirResult {
    if IsDir(dirs, p) || p in files then Exists
    else if !IsDir(dirs, Ancestor(p, |p.names| - 1)) || p in refused then Failed
    else Created
  }

  class FileSystem {
    var dirs: set<Place>
    const files: set<Place>
    const refused: set<Place>

    ghost predicate Valid()
      reads this
    {
      IsTree(dirs, files)
    }

    method Mkdir(path: string) returns (result: MkdirResult)
      requires Valid()
      modifies this
      ensures Valid()
      ensures result == if path == "" then Failed else MkdirOutcome(old(dirs), files, refused, Resolve(path))
      ensures result == Exists <==> path != "" && (Resolve(path).names == [] || Resolve(path) in old(dirs) || Resolve(path) in files)
      ensures result == Created <==>
                var p := Resolve(path);
                && path != "" && p.names != [] && p !in old(dirs) && p !in files && p !in refused
                && (|p.names| == 1 || Place(p.absolute, p.names[..|p.names| - 1]) in old(dirs))
      ensures dirs == if result == Created then old(dirs) + {Resolve(path)} else old(dirs)
    {
      if path == "" {
        return Failed;
      }
      result := MkdirOutcome(dirs, files, refused, Resolve(path));
      if result == Created {
        dirs := dirs + {Resolve(path)};
      }
    }
  }

  /** The places on the way to `p`, up to the `n`-th, that are no regular files. */
  ghost function Chain(files: set<Place>, p: Place, n: nat): set<Place>
    requires n <= |p.names|
  {
    (set k | 1 <= k <= n :: Ancestor(p, k)) - files
  }

  /** Nothing stands in the way at the `k`-th place: no refusal of a missing one, and no file below which more must come. */
  predicate OpenAt(dirs: set<Place>, files: set<Place>, refused: set<Place>, p: Place, k: nat, n: nat)
    requires k <= n <= |p.names|
  {
    var q := Ancestor(p, k);
    && (q in dirs || q in files || q !in refused)
    && (k < n ==> q !in files)
  }

  /** Nothing stands in the way of the first `n` places. */
  predicate Open(dirs: set<Place>, files: set<Place>, refused: set<Place>, p: Place, n: nat)
    requires n <= |p.names|
  {
    forall k :: 1 <= k <= n ==> OpenAt(dirs, files, refused, p, k, n)
  }

  /** From directories `dirs0`, the first `n` places on the way to `p` are settled, and nothing else is made. */
  ghost predicate Settled(dirs0: set<Place>, dirs: set<Place>, files: set<Place>, refused: set<Place>, p: Place, n: nat)
    requires n <= |p.names|
  {
    && IsTree(dirs, files)
    && Open(dirs0, files, refused, p, n)
    && dirs == dirs0 + Chain(files, p, n)
  }

  lemma ChainStep(files: set<Place>, p: Place, n: nat)
    requires n < |p.names|
    ensures Chain(files, p, n + 1) == Chain(files, p, n) + ({Ancestor(p, n + 1)} - files)
  {
    assert (set k | 1 <= k <= n + 1 :: Ancestor(p, k)) == (set k | 1 <= k <= n :: Ancestor(p, k)) + {Ancestor(p, n + 1)};
  }

  lemma ChainGrows(files: set<Place>, p: Place, n: nat, m: nat)
    requires n <= m <= |p.names|
    ensures Chain(files, p, n) <= Chain(files, p, m)
  {
  }

  /** A settled place is a directory or, if it is the last, perhaps a regular file. */
  lemma SettledPlace(dirs0: set<Place>, dirs: set<Place>, files: set<Place>, refused: set<Place>, p: Place, n: nat)
    requires n <= |p.names| && Settled(dirs0, dirs, files, refused, p, n)
    ensures IsDir(dirs, Ancestor(p, n)) || Ancestor(p, n) in files
  {
    if n > 0 {
      assert Ancestor(p, n) in (set k | 1 <= k <= n :: Ancestor(p, k));
    }
  }

  lemma OpenStep(dirs0: set<Place>, files: set<Place>, refused: set<Place>, p: Place, n: nat, m: nat)
    requires m == n + 1 && m <= |p.names| && Open(dirs0, files, refused, p, n)
    requires Ancestor(p, n) !in files || n == 0
    requires var q := Ancestor(p, m); q in dirs0 || q in files || q !in refused
    ensures Open(dirs0, files, refused, p, m)
  {
    forall k | 1 <= k <= m
      ensures OpenAt(dirs0, files, refused, p, k, m)
    {
      assert k <= n ==> OpenAt(dirs0, files, refused, p, k, n);
    }
  }

  lemma TreeGrows(dirs: set<Place>, files: set<Place>, q: Place)
    requires IsTree(dirs, files) && |q.names| > 0 && q !in files && IsDir(dirs, Ancestor(q, |q.names| - 1))
    ensures IsTree(dirs + {q}, files)
  {
  }

  lemma ParentIsDir(dirs: set<Place>, files: set<Place>, refused: set<Place>, q: Place)
    requires IsTree(dirs, files) && |q.names| > 0 && MkdirOutcome(dirs, files, refused, q) != Failed
    ensures var parent := Ancestor(q, |q.names| - 1);
            IsDir(dirs, parent) && (parent.names == [] || parent !in files)
  {
    assert forall x :: x in dirs && x in files ==> x in dirs * files;
  }

  lemma SettledBounds(dirs0: set<Place>, dirs: set<Place>, files: set<Place>, refused: set<Place>, p: Place, n: nat)
    requires n <= |p.names| && Settled(dirs0, dirs, files, refused, p, n)
    ensures dirs0 <= dirs <= dirs0 + Chain(files, p, |p.names|)
  {
    ChainGrows(files, p, n, |p.names|);
  }

  /** The next place is made or found there. */
  lemma NextSettles(dirs0: set<Place>, dirs: set<Place>, files: set<Place>, refused: set<Place>, p: Place, n: nat)
    requires n < |p.names| && Settled(dirs0, dirs, files, refused, p, n)
    requires MkdirOutcome(dirs, files, refused, Ancestor(p, n + 1)) != Failed
    ensures var q := Ancestor(p, n + 1);
            var dirs' := if MkdirOutcome(dirs, files, refused, q) == Created then dirs + {q} else dirs;
            Settled(dirs0, dirs', files, refused, p, n + 1)
  {
    var q := Ancestor(p, n + 1);
    NextStaysOpen(dirs0, dirs, files, refused, p, n);
    ChainStep(files, p, n);
    if MkdirOutcome(dirs, files, refused, q) == Created {
      TreeGrows(dirs, files, q);
      assert {q} - files == {q};
    } else {
      assert dirs + ({q} - files) == dirs;
    }
  }

  lemma NextStaysOpen(dirs0: set<Place>, dirs: set<Place>, files: set<Place>, refused: set<Place>, p: Place, n: nat)
    requires n < |p.names| && Settled(dirs0, dirs, files, refused, p, n)
    requires MkdirOutcome(dirs, files, refused, Ancestor(p, n + 1)) != Failed
    ensures Open(dirs0, files, refused, p, n + 1)
  {
    var q := Ancestor(p, n + 1);
    assert Ancestor(q, n) == Ancestor(p, n);
    ParentIsDir(dirs, files, refused, q);
    NotMadeBefore(dirs0, files, p, n);
    OpenStep(dirs0, files, refused, p, n, n + 1);
  }

  lemma NotMadeBefore(dirs0: set<Place>, files: set<Place>, p: Place, n: nat)
    requires n < |p.names|
    ensures Ancestor(p, n + 1) in dirs0 + Chain(files, p, n) <==> Ancestor(p, n + 1) in dirs0
  {
    forall k | 1 <= k <= n
      ensures Ancestor(p, k) != Ancestor(p, n + 1)
    {
      assert |Ancestor(p, k).names| == k;
    }
  }

  /** A failure at the next place means that something stands in the way. */
  lemma NextFails(dirs0: set<Place>, dirs: set<Place>, files: set<Place>, refused: set<Place>, p: Place, n: nat)
    requires n < |p.names| && Settled(dirs0, dirs, files, refused, p, n)
    requires MkdirOutcome(dirs, files, refused, Ancestor(p, n + 1)) == Failed
    ensures !Open(dirs0, files, refused, p, |p.names|)
  {
    var q := Ancestor(p, n + 1);
    assert Ancestor(q, n) == Ancestor(p, n);
    SettledPlace(dirs0, dirs, files, refused, p, n);
    NotMadeBefore(dirs0, files, p, n);
    assert n > 0 && Ancestor(p, n) in files ==> !OpenAt(dirs0, files, refused, p, n, |p.names|);
    assert q in refused && q !in files && q !in dirs0 ==> !OpenAt(dirs0, files, refused, p, n + 1, |p.names|);
  }

  // ---------------------------------------------------------------- the names of a path's prefixes

  predicate NoSlashIn(path: string, from: nat, to: nat)
    requires from <= to <= |path|
  {
    forall i :: from <= i < to ==> path[i] != '/'
  }

  /** A segment of `path` starts at `from`. */
  predicate StartsSegment(path: string, from: nat) {
    from <= |path| && (from == 0 || path[from - 1] == '/')
  }

  /** The names before the segment that starts at `from`. */
  function NamesBefore(path: string, from: nat): seq<string>
    requires StartsSegment(path, from)
  {
    if from == 0 then [] else Names(path[..from - 1])
  }

  /** The names of a path, one after the other: each is what stands between two slashes, or before the first. */
  lemma SegmentNames(path: string, from: nat, to: nat)
    requires StartsSegment(path, from) && from <= to <= |path| && NoSlashIn(path, from, to)
    ensures Names(path[..to]) == NamesBefore(path, from) + (if from == to then [] else [path[from..to]])
  {
    var head := path[..to];
    if from > 0 {
      assert head[from - 1] == '/';
      assert LastSlash(head) == Some(from - 1);
      assert head[..from - 1] == path[..from - 1] && head[from..] == path[from..to];
    } else {
      assert LastSlash(head) == None;
      assert head == path[from..to];
    }
  }

  /** Paths with the same names lead to the same place exactly if both or neither start with a slash. */
  lemma SamePlaceExactly(path: string, other: string)
    requires Names(path) == Names(other)
    ensures Resolve(path) == Resolve(other) <==> ("/" <= path <==> "/" <= other)
  {
  }

  lemma {:induction false} PrefixNames(path: string, to: nat)
    requires to < |path| && path[to] == '/'
    ensures Names(path[..to]) <= Names(path)
    decreases |path|
  {
    var k := LastSlash(path).value;
    if to < k {
      PrefixNames(path[..k], to);
      assert path[..k][..to] == path[..to];
    }
  }

  /** The first slash of `path` from `pos` on. */
  method FindSlash(path: string, pos: nat) returns (found: Option<nat>)
    requires pos <= |path|
    ensures found.Some? ==> pos <= found.value < |path| && path[found.value] == '/' && NoSlashIn(path, pos, found.value)
    ensures found.None? ==> NoSlashIn(path, pos, |path|)
  {
    for i := pos to |path|
      invariant NoSlashIn(path, pos, i)
    {
      if path[i] == '/' {
        return Some(i);
      }
    }
    return None;
  }

  // ---------------------------------------------------------------- one directory after another

  /** The prefix that ends at `to` resolves to the place one segment further, or to the same place. */
  lemma PrefixPlace(path: string, from: nat, to: nat, done: nat)
    requires StartsSegment(path, from) && from <= to <= |path| && NoSlashIn(path, from, to) && path[..to] != ""
    requires to < |path| ==> path[to] == '/'
    requires var p := Resolve(path); done <= |p.names| && p.names[..done] == NamesBefore(path, from)
    ensures var m := if from == to then done else done + 1;
            m <= |Resolve(path).names| && Resolve(path[..to]) == Ancestor(Resolve(path), m)
  {
    SegmentNames(path, from, to);
    if to < |path| {
      PrefixNames(path, to);
    } else {
      assert path[..to] == path;
    }
  }

  /** The loop stands at the segment that starts at `from`, and the `done` places before it are settled. */
  ghost predicate Walked(dirs0: set<Place>, dirs: set<Place>, files: set<Place>, refused: set<Place>, path: string, from: nat, done: nat) {
    var p := Resolve(path);
    && StartsSegment(path, from) && done <= |p.names| && p.names[..done] == NamesBefore(path, from)
    && Settled(dirs0, dirs, files, refused, p, done)
  }

  lemma WalkStarts(dirs: set<Place>, files: set<Place>, refused: set<Place>, path: string)
    requires IsTree(dirs, files)
    ensures Walked(dirs, dirs, files, refused, path, 0, 0)
  {
    assert Chain(files, Resolve(path), 0) == {};
  }

  lemma WalkPassesSlash(dirs0: set<Place>, dirs: set<Place>, files: set<Place>, refused: set<Place>, path: string, to: nat, done: nat)
    requires to < |path| && path[to] == '/'
    requires var p := Resolve(path);
             done <= |p.names| && p.names[..done] == Names(path[..to]) && Settled(dirs0, dirs, files, refused, p, done)
    ensures Walked(dirs0, dirs, files, refused, path, to + 1, done)
  {
  }

  /** One mkdir of the loop, seen from the places on the way to `path`. */
  method MakeNext(fs: FileSystem, path: string, ghost dirs0: set<Place>, ghost from: nat, to: nat, ghost done: nat)
      returns (ok: bool, ghost after: nat)
    requires Walked(dirs0, fs.dirs, fs.files, fs.refused, path, from, done)
    requires from <= to <= |path| && NoSlashIn(path, from, to) && path[..to] != ""
    requires to < |path| ==> path[to] == '/'
    modifies fs
    ensures var p := Resolve(path);
            if ok then
              && after <= |p.names| && p.names[..after] == Names(path[..to])
              && Settled(dirs0, fs.dirs, fs.files, fs.refused, p, after)
            else fs.Valid() && Creates(dirs0, fs.dirs, fs.files, fs.refused, path, false)
  {
    SettledBounds(dirs0, fs.dirs, fs.files, fs.refused, Resolve(path), done);
    ghost var p := Resolve(path);
    PrefixPlace(path, from, to, done);
    after := if from == to then done else done + 1;
    if from == to {
      SettledPlace(dirs0, fs.dirs, fs.files, fs.refused, p, done);
    } else if MkdirOutcome(fs.dirs, fs.files, fs.refused, Ancestor(p, after)) == Failed {
      NextFails(dirs0, fs.dirs, fs.files, fs.refused, p, done);
      assert StoppedAt(dirs0, fs.dirs, fs.files, fs.refused, p, done);
    } else {
      NextSettles(dirs0, fs.dirs, fs.files, fs.refused, p, done);
    }
    var result := fs.Mkdir(path[..to]);
    ok := result != Failed;
  }

  /**
   What the recursive creation promises. It ends well exactly when the path is not empty, no ancestor
   is a regular file, and no missing place on the way is refused; then every place on the way is a
   directory (the path itself may be a regular file that was there), and nothing but these has been
   made. When it fails, it has made exactly the places before the first that stands in the way.
   */
  ghost predicate Creates(dirs0: set<Place>, dirs: set<Place>, files: set<Place>, refused: set<Place>, path: string, ok: bool) {
    var p := Resolve(path);
    && (ok <==> path != "" && Open(dirs0, files, refused, p, |p.names|))
    && (ok ==> dirs == dirs0 + Chain(files, p, |p.names|))
    && (path == "" ==> dirs == dirs0)
    && (!ok && path != "" ==> exists n :: StoppedAt(dirs0, dirs, files, refused, p, n))
    && dirs0 <= dirs <= dirs0 + Chain(files, p, |p.names|)
  }

  /** The first `n` places are settled, nothing else has been made, and the next place cannot be made. */
  ghost predicate StoppedAt(dirs0: set<Place>, dirs: set<Place>, files: set<Place>, refused: set<Place>, p: Place, n: nat) {
    n < |p.names| && Settled(dirs0, dirs, files, refused, p, n) && MkdirOutcome(dirs, files, refused, Ancestor(p, n + 1)) == Failed
  }

  /**
   Exactly the first `n` places on the way are there, as far as they were missing and no files, and the
   next is missing and cannot be made: it is refused, or what it should lie in is a file.
   */
  ghost predicate MadeUpTo(dirs0: set<Place>, dirs: set<Place>, files: set<Place>, refused: set<Place>, p: Place, n: nat) {
    && n < |p.names|
    && (forall q :: q in dirs <==> q in dirs0 || (q !in files && exists k :: 1 <= k <= n && q == Place(p.absolute, p.names[..k])))
    && var next := Place(p.absolute, p.names[..n + 1]);
       && next !in dirs0 && next !in files
       && (next in refused || (n > 0 && Place(p.absolute, p.names[..n]) in files))
  }

  lemma StoppedSpelled(dirs0: set<Place>, dirs: set<Place>, files: set<Place>, refused: set<Place>, p: Place, n: nat)
    requires StoppedAt(dirs0, dirs, files, refused, p, n)
    ensures MadeUpTo(dirs0, dirs, files, refused, p, n)
  {
    assert Ancestor(Ancestor(p, n + 1), n) == Ancestor(p, n);
    NotMadeBefore(dirs0, files, p, n);
    SettledPlace(dirs0, dirs, files, refused, p, n);
    forall q
      ensures q in dirs <==> q in dirs0 || (q !in files && exists k :: 1 <= k <= n && q == Place(p.absolute, p.names[..k]))
    {
      InChain(files, p, n, q);
    }
  }

  lemma InChain(files: set<Place>, p: Place, n: nat, q: Place)
    requires n <= |p.names|
    ensures q in Chain(files, p, n) <==> q !in files && exists k :: 1 <= k <= n && q == Place(p.absolute, p.names[..k])
  {
    if k :| 1 <= k <= n && q == Place(p.absolute, p.names[..k]) {
      assert q == Ancestor(p, k);
    }
  }

  lemma CreatesSpelled(dirs0: set<Place>, dirs: set<Place>, files: set<Place>, refused: set<Place>, path: string, ok: bool)
    requires Creates(dirs0, dirs, files, refused, path, ok)
    ensures var p := Resolve(path);
            && (ok <==> path != "" && forall k :: 1 <= k <= |p.names| ==>
                                                   var q := Place(p.absolute, p.names[..k]);
                                                   && (q in dirs0 || q in files || q !in refused)
                                                   && (k < |p.names| ==> q !in files))
            && (ok ==> forall q :: q in dirs <==>
                                     q in dirs0 || (q !in files && exists k :: 1 <= k <= |p.names| && q == Place(p.absolute, p.names[..k])))
            && (path == "" ==> dirs == dirs0)
            && (!ok && path != "" ==> exists n :: MadeUpTo(dirs0, dirs, files, refused, p, n))
  {
    var p := Resolve(path);
    if !ok && path != "" {
      var n :| StoppedAt(dirs0, dirs, files, refused, p, n);
      StoppedSpelled(dirs0, dirs, files, refused, p, n);
    }
    forall k | 1 <= k <= |p.names|
      ensures OpenAt(dirs0, files, refused, p, k, |p.names|) <==>
              var q := Place(p.absolute, p.names[..k]);
              (q in dirs0 || q in files || q !in refused) && (k < |p.names| ==> q !in files)
    {
    }
  }

  /** The source's loop: one mkdir for each prefix that a slash ends, from left to right, then one for the path. */
  method CreateDirectoriesRecursively(fs: FileSystem, path: string) returns (ok: bool)
    requires fs.Valid()
    modifies fs
    ensures fs.Valid()
    ensures Creates(old(fs.dirs), fs.dirs, fs.files, fs.refused, path, ok)
    ensures var p := Resolve(path);
            && (ok <==> path != "" && forall k :: 1 <= k <= |p.names| ==>
                                                   var q := Place(p.absolute, p.names[..k]);
                                                   && (q in old(fs.dirs) || q in fs.files || q !in fs.refused)
                                                   && (k < |p.names| ==> q !in fs.files))
            && (ok ==> forall q :: q in fs.dirs <==>
                                     q in old(fs.dirs)
                                     || (q !in fs.files && exists k :: 1 <= k <= |p.names| && q == Place(p.absolute, p.names[..k])))
            && (path == "" ==> fs.dirs == old(fs.dirs))
            && (!ok && path != "" ==> exists n :: MadeUpTo(old(fs.dirs), fs.dirs, fs.files, fs.refused, p, n))
  {
    ghost var dirs0, done: nat := fs.dirs, 0;
    var pos := 0;
    WalkStarts(fs.dirs, fs.files, fs.refused, path);
    while true
      invariant pos <= |path| && Walked(dirs0, fs.dirs, fs.files, fs.refused, path, pos, done)
      decreases |path| - pos
    {
      var found := FindSlash(path, pos);
      if found.None? {
        ok := MakeLast(fs, path, dirs0, pos, done);
        CreatesSpelled(dirs0, fs.dirs, fs.files, fs.refused, path, ok);
        return;
      }
      var to := found.value;
      if path[..to] != "" {
        var made;
        made, done := MakeNext(fs, path, dirs0, pos, to, done);
        if !made {
          CreatesSpelled(dirs0, fs.dirs, fs.files, fs.refused, path, false);
          return false;
        }
      }
      WalkPassesSlash(dirs0, fs.dirs, fs.files, fs.refused, path, to, done);
      pos := to + 1;
    }
  }

  /** The mkdir after the loop, for the path itself. */
  method MakeLast(fs: FileSystem, path: string, ghost dirs0: set<Place>, ghost from: nat, ghost done: nat) returns (ok: bool)
    requires from <= |path| && NoSlashIn(path, from, |path|)
    requires Walked(dirs0, fs.dirs, fs.files, fs.refused, path, from, done)
    modifies fs
    ensures fs.Valid()
    ensures Creates(dirs0, fs.dirs, fs.files, fs.refused, path, ok)
  {
    SettledBounds(dirs0, fs.dirs, fs.files, fs.refused, Resolve(path), done);
    if path == "" {
      var result := fs.Mkdir(path);
      return result != Failed;
    }
    assert path[..|path|] == path;
    ghost var after;
    ok, after := MakeNext(fs, path, dirs0, from, |path|, done);
  }

  /** A second call succeeds as well, and makes nothing. */
  lemma SecondCallMakesNothing(dirs0: set<Place>, files: set<Place>, refused: set<Place>, p: Place)
    requires Open(dirs0, files, refused, p, |p.names|)
    ensures var dirs := dirs0 + Chain(files, p, |p.names|);
            Open(dirs, files, refused, p, |p.names|) && dirs + Chain(files, p, |p.names|) == dirs
  {
    var dirs, n := dirs0 + Chain(files, p, |p.names|), |p.names|;
    forall k | 1 <= k <= n
      ensures OpenAt(dirs, files, refused, p, k, n)
    {
      assert OpenAt(dirs0, files, refused, p, k, n);
    }
  }
}
