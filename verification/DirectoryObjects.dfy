/** Directories and mountpoints as objects that are updated in place. */
module DirectoryObjects {
  import opened Platform
  import opened SystemCalls
  import opened AutoDir

  class Directory {
    var absolutePath: string
    var isCreated: bool
    var isExternallyManaged: bool
    /** The object that this directory is part of. */
    ghost var owner: object?

    ghost function Value(): Dir
      reads this
    {
      Dir(absolutePath, isCreated, isExternallyManaged)
    }

    constructor (path: string)
      ensures Value() == Dir(path, false, false)
    {
      absolutePath, isCreated, isExternallyManaged := path, false, false;
    }

    /** Becomes a copy of a new directory object; does not clean up. */
    method Assign(path: string)
      modifies `absolutePath, `isCreated, `isExternallyManaged
      ensures Value() == Dir(path, false, false)
    {
      absolutePath, isCreated, isExternallyManaged := path, false, false;
    }

    method SetExternallyManaged()
      modifies `isCreated, `isExternallyManaged
      ensures Value() == Dir(old(absolutePath), true, true)
    {
      isCreated := true;
      isExternallyManaged := true;
    }

    method Create(sys: System, o: Oracle) returns (ok: bool)
      modifies `isCreated, sys`fs
      ensures (Value(), sys.fs, ok) == CreateDir(o, old(Value()), old(sys.fs))
    {
      if isCreated {
        return false;
      }
      if absolutePath == "" {
        return false;
      }
      isCreated := sys.MkdirHierarchy(o, absolutePath);
      ok := isCreated;
    }

    method Probe(o: Oracle, storeState: bool) returns (found: bool)
      modifies `isCreated
      ensures (Value(), found) == ProbeDir(o, old(Value()), storeState)
    {
      if absolutePath == "" {
        return false;
      }
      found := isCreated;
      if o.isDirectory(absolutePath) {
        found := true;
        if storeState {
          isCreated := found;
        }
      }
    }

    /** Removes the directory unless somebody else looks after it, trying for a
        while because unmounting may take time. */
    method Cleanup(sys: System, o: Oracle)
      modifies `absolutePath, `isCreated, sys`fs
      ensures (Value(), sys.fs) == CleanDir(o, old(Value()), old(sys.fs))
    {
      if !isCreated || isExternallyManaged {
        isCreated := false;
        absolutePath := "";
        return;
      }
      var i := 0;
      while i < RMDIR_ATTEMPTS
        invariant i <= RMDIR_ATTEMPTS && sys.fs == old(sys.fs) && Value() == old(Value())
        invariant forall k: nat :: k < i ==> !(Removable(sys.fs, absolutePath) && o.rmdirOk(absolutePath, k))
      {
        var ok := sys.Rmdir(o, absolutePath, i);
        if ok {
          break;
        }
        i := i + 1;
      }
      isCreated := false;
      absolutePath := "";
    }
  }

  class Mountpoint {
    const directory: Directory
    var isMounted: bool
    /** The object that this mountpoint is part of. */
    ghost var owner: object?

    ghost function Value(): Mp
      reads this, directory
    {
      Mp(directory.Value(), isMounted)
    }

    constructor (path: string)
      ensures Value() == Mp(Dir(path, false, false), false)
      ensures fresh(directory) && directory.owner == this
    {
      directory := new Directory(path);
      isMounted := false;
      new;
      directory.owner := this;
    }

    method Create(sys: System, o: Oracle) returns (ok: bool)
      modifies directory`isCreated, sys`fs
      ensures var (d, fs, made) := CreateDir(o, old(directory.Value()), old(sys.fs));
              Value() == Mp(d, old(isMounted)) && sys.fs == fs && ok == made
    {
      ok := directory.Create(sys, o);
    }

    /** Unmounts what the daemon has mounted, and then removes the directory. */
    method Cleanup(sys: System, o: Oracle)
      modifies `isMounted, directory`absolutePath, directory`isCreated, sys`fs
      ensures (Value(), sys.fs) == CleanMp(o, old(Value()), old(sys.fs))
    {
      DoCleanup(sys, o, true);
    }

    method DoCleanup(sys: System, o: Oracle, thoroughly: bool)
      modifies `isMounted, directory`absolutePath, directory`isCreated, sys`fs
      ensures thoroughly ==> (Value(), sys.fs) == CleanMp(o, old(Value()), old(sys.fs))
      ensures !thoroughly ==>
                && Value() == old(Value()).(mounted := false)
                && sys.fs == if old(isMounted) then Umount(o, old(sys.fs), directory.absolutePath) else old(sys.fs)
    {
      if isMounted {
        isMounted := false;
        sys.Unmount(o, directory.absolutePath);
      }
      if thoroughly {
        directory.Cleanup(sys, o);
      }
    }

    /** The destructor; that of the directory follows. */
    method Destroy(sys: System, o: Oracle)
      modifies `isMounted, directory`absolutePath, directory`isCreated, sys`fs
      ensures (Value(), sys.fs) == CleanMp(o, old(Value()), old(sys.fs))
    {
      DoCleanup(sys, o, false);
      directory.Cleanup(sys, o);
    }

    method Set(sys: System, o: Oracle, path: string)
      modifies `isMounted, directory`absolutePath, directory`isCreated, directory`isExternallyManaged, sys`fs
      ensures (Value(), sys.fs) == SetMp(o, old(Value()), path, old(sys.fs))
    {
      Cleanup(sys, o);
      directory.Assign(path);
    }

    method Mount(sys: System, o: Oracle, devname: string) returns (ok: bool)
      modifies `isMounted, sys`fs
      ensures (Value(), sys.fs, ok) == MountMp(o, old(Value()), devname, old(sys.fs))
    {
      if directory.absolutePath == "" {
        return false;
      }
      if !directory.isCreated {
        return false;
      }
      if isMounted {
        return false;
      }
      ok := sys.Mount(o, devname, directory.absolutePath);
      if ok {
        isMounted := true;
      }
    }

    /** Whether a file system is mounted here; takes note of it if wanted. */
    method Probe(o: Oracle, storeState: bool) returns (mounted: bool)
      modifies `isMounted, directory`isCreated
      ensures (Value(), mounted) == ProbeMp(o, old(Value()), storeState)
    {
      var found := directory.Probe(o, storeState);
      if !found {
        return false;
      }
      mounted := o.isMountpoint(directory.absolutePath);
      if storeState {
        isMounted := mounted;
      }
    }
  }
}
