/**
 * The part of the filesystem the TTS core touches: the set of regular files
 * that currently exist, named by absolute path, and the two ways the core
 * removes them (`remove_file` on one path, and closing a temporary directory).
 */
module Fs {

  /** What an I/O call returns: its value, or the error the operating system reported. */
  datatype IoResult<T> = Done(value: T) | Failed(error: string)

  /** `path` names an entry somewhere below directory `dir`. */
  predicate InDir(path: string, dir: string) {
    |dir| + 1 <= |path| && path[..|dir| + 1] == dir + "/"
  }

  class FileSystem {
    var files: set<string>

    constructor (files: set<string>)
      ensures this.files == files
    {
      this.files := files;
    }

    /**
     * `std::fs::remove_file`: deletes `path`. It fails when there is no such
     * file, and otherwise when the operating system refuses (a permission
     * error, a file in use, ...); `outcome` is what the operating
     * system reports for an existing file.
     */
    method RemoveFile(path: string, outcome: IoResult<()>) returns (r: IoResult<()>)
      modifies this
      ensures r.Done? <==> path in old(files) && outcome.Done?
      ensures path in old(files) ==> r == outcome
      ensures files == if r.Done? then old(files) - {path} else old(files)
    {
      if path !in files {
        r := Failed("No such file or directory");
      } else {
        if outcome.Done? {
          files := files - {path};
        }
        r := outcome;
      }
    }

    /**
     * `TempDir::close`: removes the directory `dir` and everything below it.
     * `outcome` is what the operating system reports; when it reports an
     * error, nothing is removed.
     */
    method RemoveDirAll(dir: string, outcome: IoResult<()>) returns (r: IoResult<()>)
      modifies this
      ensures r == outcome
      ensures outcome.Done? ==> files == set f | f in old(files) && !InDir(f, dir)
      ensures outcome.Failed? ==> files == old(files)
    {
      if outcome.Done? {
        files := set f | f in files && !InDir(f, dir);
      }
      r := outcome;
    }
  }
}
