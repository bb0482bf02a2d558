/**
  Adding and removing watches (io_wait.h), with the tables in place.  The
  kernel's set of watched descriptors is a field; `fault` says whether a call to
  it fails.
*/
module Reactor {
  import opened ReactorTables

  class IoWait {
    const fdHash: array<FdMap>
    const fdArray: array<int>
    const prioIdx: array<int>
    var fdNo: int
    /** The epoll set. */
    var interest: map<int, set<Flag>>
    /** The priority each watched descriptor was added with. */
    ghost var level: map<int, nat>

    ghost predicate Shape()
      reads this
    {
      && fdHash.Length == fdArray.Length && 0 <= fdNo <= fdArray.Length
      && prioIdx.Length > 0 && fdArray != prioIdx
    }

    ghost function Fds(): seq<int>
      requires Shape()
      reads this, fdArray
    {
      fdArray[..fdNo]
    }

    ghost predicate Valid()
      reads this, fdHash, fdArray, prioIdx
    {
      Shape() && Linked(fdHash[..], Fds()) && Segments(Fds(), prioIdx[..], level)
    }

    ghost predicate Synced()
      reads this, fdHash
    {
      Mirrors(interest, fdHash[..])
    }

    constructor (maxFd: nat, maxPrio: nat)
      requires maxPrio > 0
      ensures Valid() && Synced() && fresh(fdHash) && fresh(fdArray) && fresh(prioIdx)
      ensures Fds() == [] && fdHash.Length == maxFd && prioIdx.Length == maxPrio
    {
      fdHash := new FdMap[maxFd](_ => FdMap(0, 0, 0, {}));
      fdArray := new int[maxFd](_ => 0);
      prioIdx := new int[maxPrio](_ => 0);
      fdNo, interest, level := 0, map[], map[];
    }

    // ----- adding -----

    method HashFdMap(fd: int, kind: int, data: int, flags: set<Flag>) returns (already: bool)
      requires 0 <= fd < fdHash.Length
      modifies fdHash
      ensures already == (old(fdHash[fd].fd) > 0)
      ensures fdHash[..] == old(fdHash[..])[fd := FdMap(fd, kind, data, old(fdHash[fd].flags) + flags)]
    {
      already := fdHash[fd].fd > 0;
      fdHash[fd] := FdMap(fd, kind, data, fdHash[fd].flags + flags);
    }

    method Unhash(fd: int, closing: bool, sockFlags: set<Flag>) returns (erase: bool)
      requires 0 <= fd < fdHash.Length
      modifies fdHash
      ensures erase == (closing || old(fdHash[fd].flags) * WATCH == sockFlags)
      ensures fdHash[..] == old(fdHash[..])[fd := if erase then ERASED
                                                  else old(fdHash[fd]).(flags := old(fdHash[fd].flags) - sockFlags)]
    {
      var e := fdHash[fd];
      erase := closing || e.flags * WATCH == sockFlags;
      fdHash[fd] := if erase then ERASED else e.(flags := e.flags - sockFlags);
    }

    /** Puts a descriptor at the end of its priority's segment. */
    method ArraySetup(fd: int, prio: nat)
      requires Shape() && fdNo < fdArray.Length && prio < prioIdx.Length && 0 <= prioIdx[prio] <= fdNo
      modifies fdArray, prioIdx, `fdNo
      ensures Shape() && fdNo == old(fdNo) + 1
      ensures Fds() == Insert(old(Fds()), old(prioIdx[prio]), fd)
      ensures prioIdx[..] == Bump(old(prioIdx[..]), prio)
    {
      var n := prioIdx[prio];
      forall i | n < i <= fdNo {
        fdArray[i] := fdArray[i - 1];
      }
      fdArray[n] := fd;
      n := prio;
      while n < prioIdx.Length
        invariant prio <= n <= prioIdx.Length
        invariant forall j :: 0 <= j < prioIdx.Length ==>
                    prioIdx[j] == if prio <= j < n then old(prioIdx[j]) + 1 else old(prioIdx[j])
        invariant fdArray[..old(fdNo) + 1] == Insert(old(Fds()), old(prioIdx[prio]), fd)
        modifies prioIdx
      {
        prioIdx[n] := prioIdx[n] + 1;
        n := n + 1;
      }
      fdNo := fdNo + 1;
    }

    /** The request reaches the kernel: in range, and not watched for these flags yet. */
    ghost predicate Fresh(fd: int, flags: set<Flag>)
      requires Shape()
      reads this, fdHash
    {
      0 <= fd < fdHash.Length && fdNo < fdArray.Length && fdHash[fd].flags * flags == {}
    }

    /**
      Adds watch flags for a descriptor.  A request that does not reach the
      kernel changes nothing; one that the kernel refuses leaves the watched
      flags as they were, but on a descriptor already watched it has replaced
      the owner's data.  The tables stay consistent unless descriptor 0 is added.
    */
    method Add(fd: int, kind: int, data: int, prio: nat, flags: set<Flag>, fault: bool) returns (ok: bool)
      requires Valid() && fd >= -1 && kind != 0 && prio < prioIdx.Length && {} < flags <= WATCH
      modifies this, fdHash, fdArray, prioIdx
      ensures Shape() && (Valid() <==> !(fd == 0 && ok))
      ensures !old(Fresh(fd, flags)) ==>
                && unchanged(this, fdHash, fdArray, prioIdx)
                && (ok <==> 0 <= fd < fdHash.Length && fdNo < fdArray.Length && fdHash[fd].data == data)
      ensures old(Fresh(fd, flags)) ==>
                && fdHash[..] == old(fdHash[..])[fd := Added(old(fdHash[fd]), fd, kind, data, flags, ok)]
                && (old(Synced()) && fd != 0 ==> Synced() && (ok <==> !fault))
      ensures old(Fresh(fd, flags)) && ok ==> fdHash[fd] == FdMap(fd, kind, data, old(fdHash[fd].flags) + flags)
      ensures old(Fresh(fd, flags)) && !ok ==>
                fdHash[fd].flags == old(fdHash[fd].flags) && (fdHash[fd].kind == 0 <==> old(fdHash[fd].kind) == 0)
      ensures old(Fresh(fd, flags)) && (!ok || old(fdHash[fd].kind) != 0) ==>
                Fds() == old(Fds()) && prioIdx[..] == old(prioIdx[..]) && level == old(level)
      ensures old(Fresh(fd, flags)) && ok && old(fdHash[fd].kind) == 0 ==>
                && level == old(level)[fd := prio] && prioIdx[..] == Bump(old(prioIdx[..]), prio)
                && 0 <= old(prioIdx[prio]) <= old(fdNo) && Fds() == Insert(old(Fds()), old(prioIdx[prio]), fd)
    {
      hide Linked, Segments, Mirrors, Insert, Bump;
      if fd == -1 || fdNo >= fdArray.Length || fd >= fdHash.Length {
        return false;
      }
      var e := fdHash[fd];
      EntrySound(fdHash[..], Fds(), fd);
      if e.flags * flags != {} {
        return e.data == data;
      }
      ok := Register(fd, kind, data, prio, flags, fault);
    }

    method Register(fd: int, kind: int, data: int, prio: nat, flags: set<Flag>, fault: bool) returns (ok: bool)
      requires Valid() && kind != 0 && prio < prioIdx.Length && {} < flags <= WATCH && Fresh(fd, flags)
      modifies this, fdHash, fdArray, prioIdx
      ensures Shape() && (Valid() <==> !(fd == 0 && ok))
      ensures fdHash[..] == old(fdHash[..])[fd := Added(old(fdHash[fd]), fd, kind, data, flags, ok)]
      ensures old(Synced()) && fd != 0 ==> Synced() && (ok <==> !fault)
      ensures !ok || old(fdHash[fd].kind) != 0 ==>
                Fds() == old(Fds()) && prioIdx[..] == old(prioIdx[..]) && level == old(level)
      ensures ok && old(fdHash[fd].kind) == 0 ==>
                && level == old(level)[fd := prio] && prioIdx[..] == Bump(old(prioIdx[..]), prio)
                && 0 <= old(prioIdx[prio]) <= old(fdNo) && Fds() == Insert(old(Fds()), old(prioIdx[prio]), fd)
    {
      hide Linked, Segments, Mirrors, Insert, Bump;
      EntrySound(fdHash[..], Fds(), fd);
      PrioBounds(Fds(), prioIdx[..], level, prio);
      var already := HashFdMap(fd, kind, data, flags);
      // the kernel refuses to add what it has and to change what it has not
      ok := !fault && (already <==> fd in interest);
      if ok {
        interest := interest[fd := fdHash[fd].flags * WATCH];
        if !already {
          ArraySetup(fd, prio);
          level := level[fd := prio];
        }
      } else {
        var erased := Unhash(fd, false, flags);
        assert old(fdHash[fd].flags) + flags - flags == old(fdHash[fd].flags);
        assert (old(fdHash[fd].flags) + flags) * WATCH == old(fdHash[fd].flags) * WATCH + flags;
      }
      assert fdHash[..] == old(fdHash[..])[fd := Added(old(fdHash[fd]), fd, kind, data, flags, ok)];
      assert (!ok || already) ==> Fds() == old(Fds()) && prioIdx[..] == old(prioIdx[..]);
      AddKeeps(old(fdHash[..]), old(Fds()), old(prioIdx[..]), old(level), fd, kind, data, prio, flags, ok);
      if old(Synced()) {
        MirrorHas(old(interest), old(fdHash[..]), fd);
        MirrorSet(old(interest), old(fdHash[..]), fd, fdHash[fd]);
      }
    }

    // ----- removing -----

    /** The position of a descriptor, from a hint or by search. */
    method Locate(fd: int, idx: int) returns (n: int)
      requires Shape() && idx >= -1 && (idx >= 0 ==> idx < fdNo && fdArray[idx] == fd)
      ensures 0 <= n <= fdNo && (n < fdNo ==> fdArray[n] == fd) && (n == fdNo ==> fd !in Fds())
    {
      n := idx;
      if idx == -1 {
        n := 0;
        while n < fdNo && fdArray[n] != fd
          invariant 0 <= n <= fdNo && fd !in fdArray[..n]
        {
          n := n + 1;
        }
      }
    }

    /** Closes the gap at `n` and moves the priority ends after it. */
    method CloseGap(n: int)
      requires Shape() && 0 <= n < fdNo && Ascending(prioIdx[..])
      modifies fdArray, prioIdx, `fdNo
      ensures Shape() && fdNo == old(fdNo) - 1 && Fds() == Drop(old(Fds()), n)
      ensures prioIdx[..] == Sink(old(prioIdx[..]), n)
      ensures forall i :: 0 <= i < fdArray.Length ==>
                fdArray[i] == old(fdArray[i]) || (i + 1 < old(fdNo) && fdArray[i] == old(fdArray[i + 1]))
    {
      forall i | n <= i < fdNo - 1 {
        fdArray[i] := fdArray[i + 1];
      }
      label Moved:
      var i := 0;
      while i < prioIdx.Length && prioIdx[i] <= n
        invariant 0 <= i <= prioIdx.Length && forall j :: 0 <= j < i ==> prioIdx[j] <= n
      {
        i := i + 1;
      }
      assert forall j :: i <= j < prioIdx.Length ==> old(prioIdx[..])[i] <= old(prioIdx[..])[j];
      ghost var k := i;
      while i < prioIdx.Length
        invariant k <= i <= prioIdx.Length
        invariant forall j :: 0 <= j < prioIdx.Length ==>
                    prioIdx[j] == if k <= j < i then old(prioIdx[j]) - 1 else old(prioIdx[j])
        modifies prioIdx
      {
        prioIdx[i] := prioIdx[i] - 1;
        i := i + 1;
      }
      fdNo := fdNo - 1;
    }

    ghost predicate Watching(fd: int, flags: set<Flag>)
      reads fdHash
    {
      0 <= fd < fdHash.Length && fdHash[fd].kind != 0 && fdHash[fd].flags * flags != {}
    }

    /**
      Removes watch flags from a descriptor; `idx` is a hint for its position.
      The tables change the same way whether or not the kernel agrees, and stay
      consistent unless more flags are removed than were watched.
    */
    method Del(fd: int, idx: int, closing: bool, flags: set<Flag>, fault: bool) returns (ok: bool, ghost n: nat)
      requires Valid() && flags <= WATCH
      modifies this, fdHash, fdArray, prioIdx
      ensures Shape() && (Valid() <==> !(old(Watching(fd, flags)) && Overreach(old(fdHash[fd]), closing, flags)))
      ensures !old(Watching(fd, flags)) ==> !ok && unchanged(this, fdHash, fdArray, prioIdx)
      ensures old(Watching(fd, flags)) ==>
                && fdHash[..] == old(fdHash[..])[fd := Removed(old(fdHash[fd]), closing, flags)]
                && (if closing || old(fdHash[fd].flags) * WATCH == flags then fdHash[fd].kind == 0
                    else fdHash[fd] == old(fdHash[fd]).(flags := old(fdHash[fd].flags) - flags))
                && (old(Synced()) ==> (ok <==> !fault) && (Synced() <==> !fault))
                && n < old(fdNo) && old(fdArray[n]) == fd
                && (if Removed(old(fdHash[fd]), closing, flags) == ERASED then
                      && Fds() == Drop(old(Fds()), n) && prioIdx[..] == Sink(old(prioIdx[..]), n)
                      && level == old(level) - {fd}
                    else Fds() == old(Fds()) && prioIdx[..] == old(prioIdx[..]) && level == old(level))
      ensures forall i :: 0 <= i < fdArray.Length ==>
                fdArray[i] == old(fdArray[i]) || (i + 1 < old(fdNo) && fdArray[i] == old(fdArray[i + 1]))
    {
      hide Linked, Segments, Mirrors, Drop, Sink, Overreach;
      ok, n := false, 0;
      if fd < 0 || fd >= fdHash.Length || fdHash[fd].kind == 0 || fdHash[fd].flags * flags == {} {
        return;
      }
      var hint := if 0 <= idx < fdNo && fdArray[idx] == fd then idx else -1;
      ok, n := Unregister(fd, hint, closing, flags, fault);
    }

    method Unregister(fd: int, hint: int, closing: bool, flags: set<Flag>, fault: bool) returns (ok: bool, ghost n: nat)
      requires Valid() && flags <= WATCH && Watching(fd, flags)
      requires hint >= -1 && (hint >= 0 ==> hint < fdNo && fdArray[hint] == fd)
      modifies this, fdHash, fdArray, prioIdx
      ensures Shape() && (Valid() <==> !Overreach(old(fdHash[fd]), closing, flags))
      ensures fdHash[..] == old(fdHash[..])[fd := Removed(old(fdHash[fd]), closing, flags)]
      ensures old(Synced()) ==> (ok <==> !fault) && (Synced() <==> !fault)
      ensures n < old(fdNo) && old(fdArray[n]) == fd
      ensures if Removed(old(fdHash[fd]), closing, flags) == ERASED then
                && Fds() == Drop(old(Fds()), n) && prioIdx[..] == Sink(old(prioIdx[..]), n)
                && level == old(level) - {fd}
              else Fds() == old(Fds()) && prioIdx[..] == old(prioIdx[..]) && level == old(level)
      ensures forall i :: 0 <= i < fdArray.Length ==>
                fdArray[i] == old(fdArray[i]) || (i + 1 < old(fdNo) && fdArray[i] == old(fdArray[i + 1]))
    {
      hide Linked, Segments, Mirrors, Drop, Sink;
      EntrySound(fdHash[..], Fds(), fd);
      SegmentsAscend(Fds(), prioIdx[..], level);
      var erase := Unhash(fd, closing, flags);
      if erase {
        ok := !fault;
        interest := if ok then interest - {fd} else interest;
      } else {
        ok := !fault && fd in interest;
        interest := if ok then interest[fd := fdHash[fd].flags * WATCH] else interest;
      }
      var pos := Locate(fd, hint);
      n := pos;
      if erase {
        CloseGap(pos);
        level := level - {fd};
      }
      RemoveKeeps(old(fdHash[..]), old(Fds()), old(prioIdx[..]), old(level), n, closing, flags);
      if old(Synced()) {
        MirrorHas(old(interest), old(fdHash[..]), fd);
        MirrorSet(old(interest), old(fdHash[..]), fd, fdHash[fd]);
        FlagsLeft(old(fdHash[fd].flags), flags);
        MirrorBroken(old(interest), old(fdHash[..]), fd, fdHash[fd]);
      }
    }
  }
}
