/** The operating system as the daemon works on it step by step. */
module SystemCalls {
  import opened Sets
  import opened Platform

  /** The file system and the bus, on which operations succeed as the oracle says. */
  class System {
    var fs: Fs
    var log: seq<Signal>

    ghost function Value(): World
      reads this
    {
      World(fs, log)
    }

    constructor (foreign: map<string, string>)
      ensures Value() == World(Fs({}, map[], foreign), [])
    {
      fs, log := Fs({}, map[], foreign), [];
    }

    method MkdirHierarchy(o: Oracle, path: string) returns (ok: bool)
      modifies `fs
      ensures ok == CanMkdir(o, old(fs), path) && fs == Mkdir(o, old(fs), path)
    {
      ok := o.mkdirOk(path) && path !in fs.dirs;
      if ok {
        fs := fs.(dirs := fs.dirs + {path});
      }
    }

    method Rmdir(o: Oracle, path: string, attempt: nat) returns (ok: bool)
      modifies `fs
      ensures ok <==> Removable(old(fs), path) && o.rmdirOk(path, attempt)
      ensures fs == if ok then old(fs).(dirs := old(fs).dirs - {path}) else old(fs)
    {
      ok := Removable(fs, path) && o.rmdirOk(path, attempt);
      if ok {
        fs := fs.(dirs := fs.dirs - {path});
      }
    }

    method Mount(o: Oracle, devname: string, path: string) returns (ok: bool)
      modifies `fs
      ensures ok == o.mountOk(devname, path)
      ensures fs == if ok then old(fs).(mounts := old(fs).mounts[path := devname]) else old(fs)
    {
      ok := o.mountOk(devname, path);
      if ok {
        fs := fs.(mounts := fs.mounts[path := devname]);
      }
    }

    method Unmount(o: Oracle, path: string)
      modifies `fs
      ensures fs == Umount(o, old(fs), path)
    {
      if o.umountOk(path) {
        fs := fs.(mounts := fs.mounts - {path});
      }
    }

    method Symlink(o: Oracle, name: string, target: string) returns (ok: bool)
      modifies `fs
      ensures ok == o.symlinkOk(name)
      ensures fs == if ok then old(fs).(links := old(fs).links[name := target]) else old(fs)
    {
      ok := o.symlinkOk(name);
      if ok {
        fs := fs.(links := fs.links[name := target]);
      }
    }

    method FileDelete(o: Oracle, name: string) returns (ok: bool)
      modifies `fs
      ensures ok == o.unlinkOk(name) && fs == Unlink(o, old(fs), name)
    {
      ok := o.unlinkOk(name);
      if ok {
        fs := fs.(links := fs.links - {name});
      }
    }

    method Emit(signal: Signal)
      modifies `log
      ensures log == old(log) + [signal]
    {
      log := log + [signal];
    }

    /** Removes all directories directly inside `path`, trying once each. */
    method RemoveResidualDirectories(o: Oracle, path: string)
      modifies `fs
      ensures fs == RmdirChildren(o, old(fs), path)
    {
      var todo := set q | q in fs.dirs && IsChild(path, q);
      ghost var before := fs;
      ghost var all := todo;
      while todo != {}
        invariant todo <= all
        invariant fs == before.(dirs := set q | q in before.dirs
                                  && !(q in all - todo && Removable(before, q) && o.rmdirOk(q, 0)))
        decreases todo
      {
        var q := Pick(todo);
        ChildrenApart(path, q, before, fs);
        var ok := Rmdir(o, q, 0);
        todo := todo - {q};
        assert all - todo == all - (todo + {q}) + {q};
      }
    }
  }

  /** Whether a child can be removed does not depend on other children. */
  lemma ChildrenApart(path: string, q: string, fs: Fs, fs': Fs)
    requires IsChild(path, q) && q in fs'.dirs && fs'.dirs <= fs.dirs && fs'.mounts == fs.mounts
    requires forall x :: x in fs.dirs && x !in fs'.dirs ==> IsChild(path, x)
    ensures Removable(fs', q) <==> Removable(fs, q)
  {
    forall x | x in fs.dirs && Beneath(q, x) ensures x in fs'.dirs {
      assert x[|q|] == (q + "/")[|q|];
    }
  }
}
