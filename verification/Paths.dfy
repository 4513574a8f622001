/** The paths of containers and mountpoints never collide. */
module Paths {
  import opened Text
  import opened Platform

  /** `p` is the container of device `id` or lies in it. */
  predicate Own(workdir: string, id: nat, p: string) {
    p == ContainerPath(workdir, id) || Beneath(ContainerPath(workdir, id), p)
  }

  lemma OwnCharacters(workdir: string, id: nat, p: string)
    requires Own(workdir, id, p)
    ensures var n := |ContainerPath(workdir, id)|;
            && n <= |p| && p[..n] == ContainerPath(workdir, id)
            && (n < |p| ==> p[n] == '/')
            && (forall k :: |workdir| < k < n ==> p[k] != '/')
  {
    var c := ContainerPath(workdir, id);
    if p != c {
      assert p[..|c| + 1] == c + "/";
      assert p[..|c|] == (c + "/")[..|c|];
    }
    forall k | |workdir| < k < |c| ensures p[k] != '/' {
      assert p[k] == c[k] == Decimal(id)[k - |workdir| - 1];
    }
  }

  lemma LongerContainer(workdir: string, id: nat, id': nat, p: string)
    requires Own(workdir, id, p) && Own(workdir, id', p)
    ensures |ContainerPath(workdir, id)| >= |ContainerPath(workdir, id')|
  {
    OwnCharacters(workdir, id, p);
    OwnCharacters(workdir, id', p);
  }

  /** No path belongs to two devices. */
  lemma OwnDisjoint(workdir: string, id: nat, id': nat, p: string)
    requires Own(workdir, id, p) && Own(workdir, id', p)
    ensures id == id'
  {
    LongerContainer(workdir, id, id', p);
    LongerContainer(workdir, id', id, p);
    OwnCharacters(workdir, id, p);
    OwnCharacters(workdir, id', p);
    assert ContainerPath(workdir, id) == ContainerPath(workdir, id');
    assert ContainerPath(workdir, id)[|workdir| + 1..] == Decimal(id);
    assert ContainerPath(workdir, id')[|workdir| + 1..] == Decimal(id');
    ValueOfDecimal(id);
    ValueOfDecimal(id');
  }

  lemma NoSlash(i: int)
    ensures '/' !in DecimalInt(i)
  {
    hide Decimal;
    assert i < 0 ==> forall k :: 0 < k < |DecimalInt(i)| ==> DecimalInt(i)[k] == Decimal(-i)[k - 1];
  }

  lemma {:induction false} MountPathTail(workdir: string, id: nat, i: int)
    ensures var n := |ContainerPath(workdir, id)| + 1;
            && MountPath(workdir, id, i)[..n] == ContainerPath(workdir, id) + "/"
            && MountPath(workdir, id, i)[n..] == DecimalInt(i)
            && (forall k :: n <= k < |MountPath(workdir, id, i)| ==> MountPath(workdir, id, i)[k] != '/')
  {
    hide ContainerPath, DecimalInt, IsDigit;
    NoSlash(i);
    var c, p := ContainerPath(workdir, id) + "/", MountPath(workdir, id, i);
    assert p == c + DecimalInt(i);
    assert p[|c|..] == DecimalInt(i);
    forall k | |c| <= k < |p| ensures p[k] != '/' {
      assert p[k] == DecimalInt(i)[k - |c|];
    }
  }

  lemma MountPathIsOwn(workdir: string, id: nat, i: int)
    ensures Own(workdir, id, MountPath(workdir, id, i))
    ensures MountPath(workdir, id, i) != ContainerPath(workdir, id)
    ensures Beneath(ContainerPath(workdir, id), MountPath(workdir, id, i))
  {
    MountPathTail(workdir, id, i);
  }

  lemma BeneathHasSlash(p: string, q: string)
    requires Beneath(p, q)
    ensures |p| < |q| && q[|p|] == '/'
  {
    assert q[|p|] == (p + "/")[|p|];
  }

  lemma ContainerNotBelowMountPath(workdir: string, id: nat, i: int)
    ensures !Beneath(MountPath(workdir, id, i), ContainerPath(workdir, id))
  {
    MountPathTail(workdir, id, i);
  }

  lemma MountPathsNotNested(workdir: string, id: nat, i: int, j: int)
    ensures !Beneath(MountPath(workdir, id, i), MountPath(workdir, id, j))
  {
    MountPathTail(workdir, id, i);
    MountPathTail(workdir, id, j);
    if Beneath(MountPath(workdir, id, i), MountPath(workdir, id, j)) {
      BeneathHasSlash(MountPath(workdir, id, i), MountPath(workdir, id, j));
    }
  }

  /** Different volumes have different mountpoints. */
  lemma MountPathInjective(workdir: string, id: nat, i: int, id': nat, i': int)
    ensures MountPath(workdir, id, i) == MountPath(workdir, id', i') <==> id == id' && i == i'
  {
    if MountPath(workdir, id, i) == MountPath(workdir, id', i') {
      MountPathIsOwn(workdir, id, i);
      MountPathIsOwn(workdir, id', i');
      OwnDisjoint(workdir, id, id', MountPath(workdir, id, i));
      MountPathTail(workdir, id, i);
      MountPathTail(workdir, id, i');
      DecimalIntInjective(i, i');
    }
  }
}
