/** One call of materialize by itself, call by call on the file system it changes. */
module ModelStore {
  import opened ModelPublish

  class FileSystem {
    var names: map<Name, nat>
    var data: map<nat, seq<int>>
    var next: nat

    /** The stored file exists and the next inode is not in use. */
    ghost predicate Valid()
      reads this
    {
      && Source in names && names[Source] in data
      && (forall n :: n in names ==> names[n] < next)
      && (forall i :: i in data ==> i < next)
    }

    ghost function Stored(): seq<int>
      requires Valid()
      reads this
    {
      data[names[Source]]
    }

    /** All names but the two a call works on. */
    twostate predicate OthersKept(t: nat)
      reads this
    {
      forall n :: n != Published && n != Temp(t) ==>
        (n in names <==> n in old(names)) && (n in names ==> names[n] == old(names[n]))
    }

    twostate predicate StoredKept()
      requires old(Valid()) && Valid()
      reads this
    {
      names[Source] == old(names[Source]) && Stored() == old(Stored())
    }

    /** A hard link under a new name; it fails if the name exists. */
    method Link(t: nat, ok: bool) returns (done: bool)
      requires Valid()
      modifies `names
      ensures done == (ok && Temp(t) !in old(names))
      ensures names == if done then old(names)[Temp(t) := old(names)[Source]] else old(names)
      ensures Valid()
    {
      done := ok && Temp(t) !in names;
      if done {
        names := names[Temp(t) := names[Source]];
      }
    }

    method Unlink(t: nat, ok: bool)
      requires Valid()
      modifies `names
      ensures names == if ok then old(names) - {Temp(t)} else old(names)
      ensures Valid()
    {
      if ok {
        names := names - {Temp(t)};
      }
    }

    method Rename(t: nat, ok: bool) returns (done: bool)
      requires Valid()
      modifies `names
      ensures done == (ok && Temp(t) in old(names))
      ensures !done ==> names == old(names)
      ensures done ==>
        if Published in old(names) && old(names)[Published] == old(names)[Temp(t)] then names == old(names)
        else names == old(names)[Published := old(names)[Temp(t)]] - {Temp(t)}
      ensures Valid()
    {
      done := ok && Temp(t) in names;
      if done && !(Published in names && names[Published] == names[Temp(t)]) {
        names := names[Published := names[Temp(t)]] - {Temp(t)};
      }
    }

    /**
     * Streams the stored file into a file created for it, some bytes at a time. Nothing that existed before is
     * opened: on success the new name holds the whole file, on failure at most part of it, and all else is kept.
     */
    method CopyInto(t: nat, ok: nat -> bool, chunk: nat) returns (done: bool)
      requires Valid() && chunk > 0
      modifies this
      ensures Valid() && StoredKept() && OthersKept(t)
      ensures names == old(names) || (Temp(t) !in old(names) && names == old(names)[Temp(t) := old(next)])
      ensures forall i :: i in old(data) ==> i in data && data[i] == old(data)[i]
      ensures done ==> Temp(t) in names && names[Temp(t)] == old(next) && names[Temp(t)] in data
      ensures done ==> data[names[Temp(t)]] == old(Stored())
    {
      if !ok(0) || Temp(t) in names {
        return false;
      }
      ghost var before := data;
      var blob := data[names[Source]];
      var inode := next;
      names := names[Temp(t) := inode];
      data := data[inode := []];
      next := next + 1;
      var n, off := 1, 0;
      while off < |blob|
        invariant 0 <= off <= |blob|
        invariant names == old(names)[Temp(t) := inode] && next == inode + 1
        invariant inode in data && data[inode] == blob[..off]
        invariant forall i :: i in before ==> i in data && data[i] == before[i]
        invariant forall i :: i in data ==> i in before || i == inode
      {
        if !ok(n) {
          return false;
        }
        var end := if off + chunk <= |blob| then off + chunk else |blob|;
        assert blob[..off] + blob[off..end] == blob[..end];
        data := data[inode := data[inode] + blob[off..end]];
        off := end;
        n := n + 1;
      }
      assert blob[..off] == blob;
      done := ok(n);
    }

    /**
     * Puts the stored file at the published path; `stat` tells whether the call can look if it is there already. On
     * success the path holds all of it. A temporary name is left then exactly if the call could not look, the path was
     * the stored file already, and it was linked once more. On failure the path is as it was, and no temporary name is
     * left unless its removal failed too. The stored file and all other names are kept.
     */
    method Materialize(t: nat, stat: bool, ok: nat -> bool, link: bool, rename: bool, remove: bool, chunk: nat)
      returns (done: bool)
      requires Valid() && Temp(t) !in names && chunk > 0
      modifies this
      ensures Valid() && StoredKept() && OthersKept(t)
      ensures done ==> Published in names && names[Published] in data && data[names[Published]] == old(Stored())
      ensures done ==> (Temp(t) in names <==>
        !stat && link && Published in old(names) && old(names[Published]) == old(names[Source]))
      ensures !done ==> (Published in names <==> Published in old(names))
      ensures !done && Published in names ==> names[Published] == old(names[Published])
      ensures !done && remove ==> Temp(t) !in names
      ensures stat && Published in old(names) && old(names[Published]) == old(names[Source]) ==>
        done && names == old(names)
      ensures link && rename ==> done
    {
      if stat && Published in names && names[Source] == names[Published] {
        return true;
      }
      var linked := Link(t, link);
      if !linked {
        var copied := CopyInto(t, ok, chunk);
        if !copied {
          Unlink(t, remove);
          return false;
        }
      }
      done := Rename(t, rename);
      if !done {
        Unlink(t, remove);
      }
    }
  }
}
