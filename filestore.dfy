/**
 * The part of the filesystem the pipeline writes text to: a map from path to
 * file contents. `open(path, 'w')` truncates or creates, `f.write` appends and
 * `os.remove` deletes.
 */
module FileStore {

  /** Writing a file twice leaves what the second write put there. */
  lemma Overwrite<K, V>(m: map<K, V>, k: K, a: V, b: V)
    ensures m[k := a][k := b] == m[k := b]
  {
  }

  class Disk {
    var files: map<string, string>

    constructor(files: map<string, string>)
      ensures this.files == files
    {
      this.files := files;
    }

    /** `open(path, 'w')`: the file exists afterwards and is empty. */
    method Create(path: string)
      modifies this
      ensures files == old(files)[path := ""]
    {
      files := files[path := ""];
    }

    /** `f.write(text)` on a file opened for writing. */
    method Append(path: string, text: string)
      requires path in files
      modifies this
      ensures files == old(files)[path := old(files)[path] + text]
    {
      files := files[path := files[path] + text];
    }

    /** `os.remove(path)`: false where it raises because the file is gone. */
    method Remove(path: string) returns (removed: bool)
      modifies this
      ensures removed == (path in old(files))
      ensures files == old(files) - {path}
    {
      removed := path in files;
      files := files - {path};
    }
  }
}
