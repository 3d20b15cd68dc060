/** One atomic write, alone: the statements of WriteFileAtomic with its deferred cleanup. */
module FileStore {
  import opened Bytes
  import opened AtomicWrite

  /** Which file-system requests of one call fail; `copied` is how much is written before
      a failing copy gives up. */
  datatype Faults = Faults(mkdir: bool, create: bool, copy: bool, copied: nat, close: bool, rename: bool, remove: bool)

  class Store {
    var files: map<Path, Bytes>

    constructor ()
      ensures files == map[]
    {
      files := map[];
    }

    /** io.Copy, a chunk at a time, into the open temporary file. */
    method Copy(tmp: Path, content: Bytes, f: Faults, chunk: nat) returns (ok: bool)
      requires chunk > 0 && tmp in files && files[tmp] == []
      modifies this
      ensures ok == !f.copy
      ensures files.Keys == old(files.Keys)
      ensures forall p :: p in files && p != tmp ==> files[p] == old(files[p])
      ensures tmp in files && (ok ==> files[tmp] == content)
    {
      var stop := if f.copy && f.copied < |content| then f.copied else |content|;
      var n := 0;
      while n < stop
        invariant 0 <= n <= stop
        invariant files.Keys == old(files.Keys) && files[tmp] == content[..n]
        invariant forall p :: p in files && p != tmp ==> files[p] == old(files[p])
      {
        n := if n + chunk < stop then n + chunk else stop;
        files := files[tmp := content[..n]];
      }
      assert content[..|content|] == content;
      return !f.copy;
    }

    /** Writes `content` to `path` through the temporary file `picked`, which the create
        request chooses among the names that do not exist. All or nothing: the target gets
        exactly the content, or no file changes; at worst a temporary file stays behind
        when its removal fails as well. */
    method WriteFileAtomic(path: Path, content: Bytes, picked: Path, f: Faults, chunk: nat) returns (ok: bool)
      requires chunk > 0
      requires IsTemp(picked) && picked !in files
      modifies this
      ensures ok <==> !f.mkdir && !f.create && !f.copy && !f.close && !f.rename
      ensures ok ==> files == old(files)[path := content]
      ensures !ok ==> files - {picked} == old(files)
      ensures !ok && picked in files ==> f.remove
    {
      assert files - {picked} == files;
      if f.mkdir {
        return false;
      }
      if f.create {
        return false;
      }
      files := files[picked := []];
      var tmpPath := Some(picked);
      ok := Copy(picked, content, f, chunk);
      assert files - {picked} == old(files);
      if ok {
        ok := !f.close;
      }
      if ok {
        ok := !f.rename;
        if ok {
          files := (files - {picked})[path := files[picked]];
          tmpPath := None;
        }
      }
      if tmpPath.Some? && !f.remove {
        files := files - {tmpPath.value};
      }
    }
  }
}
