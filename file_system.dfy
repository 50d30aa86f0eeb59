/**
 * The part of the filesystem the engine touches.
 *
 * A `Disk` holds the tracked (live) files by full path and the directories by path.
 * Every directory is a `BlobDir` object holding the patch files stored in it, each named
 * after the 64-bit id of its patch (the file name is an injective function of the id, so
 * the model keys blobs by the id itself). Two handles on the same directory are the same
 * object, which is how a cloned timeline shares its blobs with the original.
 *
 * Every operation that the operating system can refuse (permissions, a full disk, ...)
 * returns its error nondeterministically; the contracts say what holds either way.
 */
module FileSystem {
  import opened Wrappers
  import opened Primitives

  /** A directory of patch files. */
  class BlobDir {
    var blobs: map<u64, Bytes>

    constructor ()
      ensures blobs == map[]
    {
      blobs := map[];
    }

    /** `File::open` followed by `read_to_end`. */
    function Read(id: u64): (r: Result<Bytes, IoError>)
      reads this
      ensures r.Ok? <==> id in blobs
      ensures r.Ok? ==> r.value == blobs[id]
      ensures r.Err? ==> r.error == NotFound
    {
      if id in blobs then Ok(blobs[id]) else Err(NotFound)
    }

    /**
     * `File::create` followed by `write_all`: creates or truncates the file, then writes.
     * When the write fails after the file was created, the file is left empty or holding
     * part of `data`; nothing else in the directory changes.
     */
    method Create(id: u64, data: Bytes) returns (r: Result<(), IoError>)
      modifies this
      ensures r.Ok? ==> blobs == old(blobs)[id := data]
      ensures r.Err? ==> blobs - {id} == old(blobs) - {id} && (id in old(blobs) ==> id in blobs)
    {
      var refused: bool := *;
      if refused {
        var leftBehind: bool := *;
        if leftBehind {
          var partial: Bytes := *;
          blobs := blobs[id := partial];
        }
        return Err(Refused);
      }
      blobs := blobs[id := data];
      return Ok(());
    }

    /** `fs::remove_file`: fails with `NotFound` when there is no such file. */
    method Remove(id: u64) returns (r: Result<(), IoError>)
      modifies this
      ensures id !in old(blobs) ==> r == Err(NotFound)
      ensures r.Ok? ==> id in old(blobs) && blobs == old(blobs) - {id}
      ensures r.Err? ==> blobs == old(blobs)
    {
      if id !in blobs {
        return Err(NotFound);
      }
      var refused: bool := *;
      if refused {
        return Err(Refused);
      }
      blobs := blobs - {id};
      return Ok(());
    }
  }

  class Disk {
    var files: map<Path, Bytes>
    var dirs: map<Path, BlobDir>

    /** A path names a file or a directory, not both; different paths are different directories. */
    ghost predicate Valid()
      reads this
    {
      && files.Keys !! dirs.Keys
      && forall p, q :: p in dirs && q in dirs && p != q ==> dirs[p] != dirs[q]
    }

    /** `Path::exists`. */
    predicate Exists(p: Path)
      reads this
    {
      p in files || p in dirs
    }

    /** `fs::read`: the whole content of a regular file. */
    method Read(p: Path) returns (r: Result<Bytes, IoError>)
      ensures r.Ok? ==> p in files && r.value == files[p]
      ensures p in dirs ==> r == Err(IsADirectory)
      ensures !Exists(p) ==> r == Err(NotFound)
    {
      if p in dirs {
        return Err(IsADirectory);
      }
      if p !in files {
        return Err(NotFound);
      }
      var refused: bool := *;
      if refused {
        return Err(Refused);
      }
      return Ok(files[p]);
    }

    /**
     * `fs::write`: creates or truncates the file, then writes. A failed write may leave the
     * file with any content; no other file changes.
     */
    method Write(p: Path, data: Bytes) returns (r: Result<(), IoError>)
      requires Valid()
      modifies this
      ensures Valid() && dirs == old(dirs)
      ensures p in dirs ==> r == Err(IsADirectory)
      ensures r.Ok? ==> files == old(files)[p := data]
      ensures r.Err? ==> files - {p} == old(files) - {p}
    {
      if p in dirs {
        return Err(IsADirectory);
      }
      var refused: bool := *;
      if refused {
        var leftBehind: bool := *;
        if leftBehind {
          var partial: Bytes := *;
          files := files[p := partial];
        }
        return Err(Refused);
      }
      files := files[p := data];
      return Ok(());
    }

    /**
     * `fs::create_dir_all`: succeeds on an existing directory (handing back the same
     * directory), creates an empty one otherwise, and fails when a file is in the way.
     */
    method CreateDirAll(p: Path) returns (r: Result<BlobDir, IoError>)
      requires Valid()
      modifies this
      ensures Valid() && files == old(files)
      ensures p in old(files) ==> r == Err(AlreadyAFile)
      ensures r.Err? ==> dirs == old(dirs)
      ensures r.Ok? ==> p in dirs && dirs[p] == r.value
      ensures r.Ok? && p in old(dirs) ==> dirs == old(dirs)
      ensures r.Ok? && p !in old(dirs) ==>
                fresh(r.value) && r.value.blobs == map[] && dirs == old(dirs)[p := r.value]
    {
      if p in files {
        return Err(AlreadyAFile);
      }
      if p in dirs {
        return Ok(dirs[p]);
      }
      var refused: bool := *;
      if refused {
        return Err(Refused);
      }
      var d := new BlobDir();
      dirs := dirs[p := d];
      return Ok(d);
    }
  }
}
