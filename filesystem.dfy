/**
 * The part of the file system the program touches: regular files (in the
 * order `os.listdir` reports them), directories, and the JSON sidecars with
 * their parsed content. Moves and deletions take the OS's verdict on the
 * I/O as an input; a file that does not exist always makes them fail.
 */
module FileSystem {
  import opened Metadata
  import opened PathNames

  /** `fs` without `p`. */
  function Without(fs: seq<string>, p: string): (r: seq<string>)
    ensures forall q :: q in r <==> q in fs && q != p
    ensures |r| <= |fs|
  {
    if |fs| == 0 then []
    else if fs[0] == p then Without(fs[1..], p)
    else [fs[0]] + Without(fs[1..], p)
  }

  /** The files after `shutil.move(src, dst)`: `src` is gone and `dst` (overwritten if it existed) is the newest entry. */
  function Moved(fs: seq<string>, src: string, dst: string): (r: seq<string>)
    ensures forall q :: q in r <==> q == dst || (q in fs && q != src)
  {
    Without(Without(fs, src), dst) + [dst]
  }

  /** `p` lies directly inside `folder`. */
  predicate InFolder(p: string, folder: string)
  {
    p == Join(folder, Basename(p))
  }

  /** `os.listdir(folder)` restricted to regular files, in file order. */
  function Names(fs: seq<string>, folder: string): (r: seq<string>)
    ensures |r| <= |fs|
  {
    if |fs| == 0 then []
    else
      var rest := Names(fs[1..], folder);
      if InFolder(fs[0], folder) then [Basename(fs[0])] + rest else rest
  }

  /** The listing holds the basenames of exactly the files that lie directly in the folder. */
  lemma {:induction false} NamesMembers(fs: seq<string>, folder: string)
    ensures forall n :: n in Names(fs, folder) <==> exists p :: p in fs && InFolder(p, folder) && n == Basename(p)
  {
    if |fs| > 0 {
      NamesMembers(fs[1..], folder);
      assert forall p :: p in fs <==> p == fs[0] || p in fs[1..];
    }
  }

  /** A separator-free name joined onto a folder lies in that folder. */
  lemma JoinInFolder(folder: string, name: string)
    requires !HasSep(name)
    ensures InFolder(Join(folder, name), folder)
  {
    BasenameOfJoin(folder, name);
  }

  /**
   * Two captures relocated to the same destination: the second overwrites the
   * first, so only the destination and not the first capture's content
   * survives; the result is as if the first file had simply been deleted.
   */
  lemma {:induction false} SecondMoveOverwrites(fs: seq<string>, a: string, b: string, dst: string)
    ensures Moved(Moved(fs, a, dst), b, dst) == Moved(Without(fs, a), b, dst)
  {
    var y := Without(fs, a);
    var x := Without(y, dst);
    WithoutTwice(y, dst);
    WithoutAppend(x, dst, b);
    if b == dst {
      assert Without(x + [dst], b) == x;
    } else {
      assert Without(x + [dst], b) == Without(x, b) + [dst];
      WithoutAppend(Without(x, b), dst, dst);
      WithoutCommute(y, dst, b);
      WithoutTwice(Without(y, b), dst);
    }
  }

  lemma {:induction false} WithoutAppend(fs: seq<string>, x: string, p: string)
    ensures Without(fs + [x], p) == Without(fs, p) + (if x == p then [] else [x])
  {
    if |fs| == 0 {
      assert fs + [x] == [x];
    } else {
      assert (fs + [x])[1..] == fs[1..] + [x];
      WithoutAppend(fs[1..], x, p);
    }
  }

  lemma {:induction false} WithoutTwice(fs: seq<string>, p: string)
    ensures Without(Without(fs, p), p) == Without(fs, p)
  {
    if |fs| > 0 {
      WithoutTwice(fs[1..], p);
    }
  }

  lemma {:induction false} WithoutCommute(fs: seq<string>, p: string, q: string)
    ensures Without(Without(fs, p), q) == Without(Without(fs, q), p)
  {
    if |fs| > 0 {
      WithoutCommute(fs[1..], p, q);
    }
  }

  class Disk {
    var files: seq<string>
    var dirs: set<string>
    var sidecars: map<string, Meta>
    /** `os.path.getctime`, as the OS reports it. */
    const ctime: string -> int

    constructor (files: seq<string>, dirs: set<string>, sidecars: map<string, Meta>, ctime: string -> int)
      ensures this.files == files && this.dirs == dirs && this.sidecars == sidecars && this.ctime == ctime
    {
      this.files, this.dirs, this.sidecars, this.ctime := files, dirs, sidecars, ctime;
    }

    /** `os.path.exists(p)` */
    predicate Exists(p: string)
      reads this`files, this`dirs, this`sidecars
    {
      p in files || p in dirs || p in sidecars
    }

    /** The regular files directly inside `folder`, by name. */
    function ListDir(folder: string): seq<string>
      reads this`files
    {
      Names(files, folder)
    }

    /** `os.makedirs(p, exist_ok=True)` */
    method MakeDirs(p: string)
      modifies this`dirs
      ensures dirs == old(dirs) + {p}
    {
      dirs := dirs + {p};
    }

    /** `shutil.move(src, dst)` */
    method Move(src: string, dst: string, ioOk: bool) returns (ok: bool)
      modifies this`files
      ensures ok == (ioOk && src in old(files))
      ensures files == if ok then Moved(old(files), src, dst) else old(files)
    {
      ok := ioOk && src in files;
      if ok {
        files := Moved(files, src, dst);
      }
    }

    /** `os.remove(p)` */
    method Remove(p: string, ioOk: bool) returns (ok: bool)
      modifies this`files
      ensures ok == (ioOk && p in old(files))
      ensures files == if ok then Without(old(files), p) else old(files)
    {
      ok := ioOk && p in files;
      if ok {
        files := Without(files, p);
      }
    }

    /** Writes (or overwrites) a regular file at `p`. */
    method WriteFile(p: string)
      modifies this`files
      ensures files == Without(old(files), p) + [p]
    {
      files := Without(files, p) + [p];
    }

    /** `json.dump` of the metadata into the sidecar at `p`. */
    method WriteSidecar(p: string, m: Meta)
      modifies this`sidecars
      ensures sidecars == old(sidecars)[p := m]
    {
      sidecars := sidecars[p := m];
    }
  }
}
