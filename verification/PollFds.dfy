/** Poll's table of descriptors: an array that grows by eight entries, searched linearly. It
    stands for a map from descriptor to event mask. */
module PollFds {
  const INCREASE_ACTIVE_FDS := 8

  const NO_ERROR := 0
  const ERROR_NO_MEMORY := -12
  const ERROR_BAD_VALUE := -22

  type Mask = bv16

  const POLLIN: Mask := 0x01
  const POLLPRI: Mask := 0x02
  const POLLOUT: Mask := 0x04
  const POLLERR: Mask := 0x08
  const POLLHUP: Mask := 0x10
  const POLLNVAL: Mask := 0x20

  datatype Pollfd = Pollfd(fd: int, events: Mask, revents: Mask)

  // ---- the table as a map ----

  type Table = map<int, Mask>

  datatype Op = AddFd(fd: int) | SetReadable(fd: int, on: bool) | SetWritable(fd: int, on: bool)

  /** Turning reading off leaves POLLPRI set. */
  function ReadBits(m: Mask, on: bool): Mask {
    if on then m | (POLLIN | POLLPRI) else m & !POLLIN
  }

  function WriteBits(m: Mask, on: bool): Mask {
    if on then m | POLLOUT else m & !POLLOUT
  }

  function Masked(m: Mask, op: Op): Mask
    requires !op.AddFd?
  {
    match op
    case SetReadable(_, on) => ReadBits(m, on)
    case SetWritable(_, on) => WriteBits(m, on)
  }

  function After(table: Table, op: Op): Table {
    match op
    case AddFd(fd) => if fd in table then table else table[fd := POLLERR | POLLNVAL | POLLHUP]
    case _ => if op.fd in table then table[op.fd := Masked(table[op.fd], op)] else table
  }

  function AfterAll(table: Table, ops: seq<Op>): Table {
    if ops == [] then table else After(AfterAll(table, ops[..|ops| - 1]), ops[|ops| - 1])
  }

  /** The last thing ops say about reading from fd, once fd has been added. */
  function LastRead(ops: seq<Op>, fd: int): bool {
    if ops == [] then false
    else match ops[|ops| - 1]
      case SetReadable(f, on) => if f == fd && Added(ops[..|ops| - 1], fd) then on else LastRead(ops[..|ops| - 1], fd)
      case _ => LastRead(ops[..|ops| - 1], fd)
  }

  function LastWrite(ops: seq<Op>, fd: int): bool {
    if ops == [] then false
    else match ops[|ops| - 1]
      case SetWritable(f, on) => if f == fd && Added(ops[..|ops| - 1], fd) then on else LastWrite(ops[..|ops| - 1], fd)
      case _ => LastWrite(ops[..|ops| - 1], fd)
  }

  predicate Added(ops: seq<Op>, fd: int) {
    AddFd(fd) in ops
  }

  /** fd has been made readable at least once since it was added. */
  function EverRead(ops: seq<Op>, fd: int): bool {
    ops != [] && (EverRead(ops[..|ops| - 1], fd)
                  || (ops[|ops| - 1] == SetReadable(fd, true) && Added(ops[..|ops| - 1], fd)))
  }

  /** The bits of the mask are what the calls said last; POLLPRI stays once it has been set; the
      three error bits are always there. */
  lemma {:induction false} TableAfterCalls(ops: seq<Op>, fd: int)
    ensures fd in AfterAll(map[], ops) <==> Added(ops, fd)
    ensures Added(ops, fd) ==>
              AfterAll(map[], ops)[fd] == POLLERR | POLLNVAL | POLLHUP
                                          | (if LastRead(ops, fd) then POLLIN else 0)
                                          | (if EverRead(ops, fd) then POLLPRI else 0)
                                          | (if LastWrite(ops, fd) then POLLOUT else 0)
    ensures !Added(ops, fd) ==> !LastRead(ops, fd) && !EverRead(ops, fd) && !LastWrite(ops, fd)
  {
    if ops != [] {
      var before, op := ops[..|ops| - 1], ops[|ops| - 1];
      assert ops == before + [op];
      TableAfterCalls(before, fd);
    }
  }

  // ---- entries and the map they stand for ----

  ghost predicate DistinctFds(es: seq<Pollfd>) {
    forall i, j :: 0 <= i < j < |es| ==> es[i].fd != es[j].fd
  }

  ghost predicate Absent(es: seq<Pollfd>, fd: int) {
    forall i :: 0 <= i < |es| ==> es[i].fd != fd
  }

  ghost function TableOf(es: seq<Pollfd>): Table {
    if es == [] then map[] else TableOf(es[..|es| - 1])[es[|es| - 1].fd := es[|es| - 1].events]
  }

  lemma {:induction false} TableHas(es: seq<Pollfd>, fd: int)
    ensures fd in TableOf(es) <==> !Absent(es, fd)
  {
    if es != [] {
      var init := es[..|es| - 1];
      TableHas(init, fd);
      assert forall i :: 0 <= i < |init| ==> init[i] == es[i];
    }
  }

  lemma {:induction false} TableHolds(es: seq<Pollfd>, at: nat)
    requires DistinctFds(es) && at < |es|
    ensures es[at].fd in TableOf(es) && TableOf(es)[es[at].fd] == es[at].events
  {
    if at < |es| - 1 {
      TableHolds(es[..|es| - 1], at);
    }
  }

  lemma TableGrows(es: seq<Pollfd>, e: Pollfd)
    ensures TableOf(es + [e]) == TableOf(es)[e.fd := e.events]
  {
    assert (es + [e])[..|es|] == es;
  }

  lemma {:induction false} TableUpdated(es: seq<Pollfd>, at: nat, m: Mask)
    requires DistinctFds(es) && at < |es|
    ensures TableOf(es[at := es[at].(events := m)]) == TableOf(es)[es[at].fd := m]
  {
    var last, r := |es| - 1, es[at := es[at].(events := m)];
    if at == last {
      assert r[..last] == es[..last];
    } else {
      TableUpdated(es[..last], at, m);
      assert r[..last] == es[..last][at := es[at].(events := m)];
      assert r[last] == es[last] && es[last].fd != es[at].fd;
    }
  }

  /** Storing a new mask in the entry for the descriptor is what the setter does to the map. */
  lemma SetterRefines(es: seq<Pollfd>, at: nat, op: Op)
    requires DistinctFds(es) && at < |es| && !op.AddFd? && es[at].fd == op.fd
    ensures TableOf(es[at := es[at].(events := Masked(es[at].events, op))]) == After(TableOf(es), op)
  {
    TableHolds(es, at);
    TableUpdated(es, at, Masked(es[at].events, op));
  }

  lemma SetterMisses(es: seq<Pollfd>, op: Op)
    requires Absent(es, op.fd) && !op.AddFd?
    ensures After(TableOf(es), op) == TableOf(es)
  {
    TableHas(es, op.fd);
  }

  /** Apart from the masks nothing is different. */
  ghost predicate SameButMasks(es: seq<Pollfd>, fs: seq<Pollfd>) {
    |es| == |fs| && forall i :: 0 <= i < |es| ==> es[i].fd == fs[i].fd && es[i].revents == fs[i].revents
  }

  // ---- the array ----

  class Fds {
    var mFds: array?<Pollfd>
    var mFdsCnt: nat
    var mFdsMaxCnt: nat

    /** The entries in use. */
    ghost var entries: seq<Pollfd>

    /** The entries in use carry different descriptors, the capacity is a multiple of eight and
        is what has been allocated. */
    ghost predicate Valid()
      reads this, mFds
    {
      && |entries| == mFdsCnt <= mFdsMaxCnt && mFdsMaxCnt % INCREASE_ACTIVE_FDS == 0
      && (if mFds == null then mFdsMaxCnt == 0 else mFds.Length == mFdsMaxCnt && mFds[..mFdsCnt] == entries)
      && DistinctFds(entries)
    }

    constructor ()
      ensures Valid() && entries == []
    {
      mFds, mFdsCnt, mFdsMaxCnt, entries := null, 0, 0, [];
    }

    /** The index of the entry for fd; found is false where the search returns NULL. */
    method FindFd(fd: int) returns (found: bool, at: nat)
      requires Valid()
      ensures found ==> at < |entries| && entries[at].fd == fd
      ensures !found ==> Absent(entries, fd)
    {
      var i := 0;
      while i < mFdsCnt
        invariant 0 <= i <= mFdsCnt
        invariant forall k :: 0 <= k < i ==> entries[k].fd != fd
      {
        assert mFds[i] == entries[i];
        if mFds[i].fd == fd {
          return true, i;
        }
        i := i + 1;
      }
      return false, 0;
    }

    /** A realloc that succeeds: the old entries, in an array of the new size. */
    method Reallocate()
      requires mFdsCnt <= mFdsMaxCnt && |entries| == mFdsCnt
      requires if mFds == null then mFdsCnt == 0 else mFdsCnt <= mFds.Length && mFds[..mFdsCnt] == entries
      modifies this`mFds
      ensures mFds != null && fresh(mFds) && mFds.Length == mFdsMaxCnt
      ensures mFds[..mFdsCnt] == entries
    {
      var bigger := new Pollfd[mFdsMaxCnt](_ => Pollfd(0, 0, 0));
      forall i | 0 <= i < mFdsCnt {
        bigger[i] := mFds[i];
      }
      assert forall i :: 0 <= i < mFdsCnt ==> bigger[i] == mFds[..mFdsCnt][i];
      mFds := bigger;
    }

    /** Appends an entry where there is room. */
    method Append(entry: Pollfd)
      requires Valid() && mFdsCnt < mFdsMaxCnt && Absent(entries, entry.fd)
      modifies this`mFdsCnt, this`entries, mFds
      ensures Valid() && entries == old(entries) + [entry]
    {
      mFds[mFdsCnt] := entry;
      mFdsCnt := mFdsCnt + 1;
      entries := entries + [entry];
    }

    /** memory tells whether realloc succeeds. When it is needed and fails the array pointer is
        lost, and the object is no longer usable. */
    method AddFd(fd: int, memory: bool) returns (ret: int)
      requires Valid()
      modifies this, mFds
      ensures ret == NO_ERROR <==> memory || old(mFdsCnt < mFdsMaxCnt) || old(!Absent(entries, fd))
      ensures ret == NO_ERROR ==> Valid() && TableOf(entries) == After(TableOf(old(entries)), Op.AddFd(fd))
      ensures ret == NO_ERROR && old(!Absent(entries, fd)) ==> entries == old(entries)
      ensures ret == NO_ERROR && old(Absent(entries, fd)) ==>
                entries == old(entries) + [Pollfd(fd, POLLERR | POLLNVAL | POLLHUP, 0)]
      ensures ret == NO_ERROR ==> mFds == old(mFds) || fresh(mFds)
      ensures mFdsMaxCnt == old(mFdsMaxCnt)
                            + (if old(Absent(entries, fd) && mFdsCnt == mFdsMaxCnt) then INCREASE_ACTIVE_FDS else 0)
      ensures ret != NO_ERROR ==> ret == ERROR_NO_MEMORY && !Valid()
    {
      TableHas(entries, fd);
      var found, _ := FindFd(fd);
      if found {
        return NO_ERROR;
      }
      if mFdsCnt + 1 > mFdsMaxCnt {
        mFdsMaxCnt := mFdsMaxCnt + INCREASE_ACTIVE_FDS;
        if !memory {
          mFds := null;
          return ERROR_NO_MEMORY;
        }
        Reallocate();
      }
      TableGrows(entries, Pollfd(fd, POLLERR | POLLNVAL | POLLHUP, 0));
      Append(Pollfd(fd, POLLERR | POLLNVAL | POLLHUP, 0));
      return NO_ERROR;
    }

    /** Stores the mask that op asks for in entry at, which is the one for op's descriptor. */
    method SetEvents(at: nat, events: Mask, ghost op: Op)
      requires Valid() && at < mFdsCnt && !op.AddFd? && entries[at].fd == op.fd
      requires events == Masked(entries[at].events, op)
      modifies this`entries, mFds
      ensures Valid() && TableOf(entries) == After(TableOf(old(entries)), op)
      ensures SameButMasks(old(entries), entries)
    {
      SetterRefines(entries, at, op);
      assert mFds[at] == entries[at];
      mFds[at] := mFds[at].(events := events);
      entries := entries[at := entries[at].(events := events)];
    }

    method SetFdReadable(fd: int, readable: bool) returns (ret: int)
      requires Valid()
      modifies this`entries, mFds
      ensures Valid() && TableOf(entries) == After(TableOf(old(entries)), SetReadable(fd, readable))
      ensures SameButMasks(old(entries), entries)
      ensures ret == if Absent(old(entries), fd) then ERROR_BAD_VALUE else NO_ERROR
      ensures ret != NO_ERROR <==> Absent(old(entries), fd)
    {
      var found, at := FindFd(fd);
      if !found {
        SetterMisses(entries, SetReadable(fd, readable));
        return ERROR_BAD_VALUE;
      }
      assert mFds[at] == entries[at];
      SetEvents(at, ReadBits(mFds[at].events, readable), SetReadable(fd, readable));
      return NO_ERROR;
    }

    method SetFdWritable(fd: int, writable: bool) returns (ret: int)
      requires Valid()
      modifies this`entries, mFds
      ensures Valid() && TableOf(entries) == After(TableOf(old(entries)), SetWritable(fd, writable))
      ensures SameButMasks(old(entries), entries)
      ensures ret == if Absent(old(entries), fd) then ERROR_BAD_VALUE else NO_ERROR
      ensures ret != NO_ERROR <==> Absent(old(entries), fd)
    {
      var found, at := FindFd(fd);
      if !found {
        SetterMisses(entries, SetWritable(fd, writable));
        return ERROR_BAD_VALUE;
      }
      assert mFds[at] == entries[at];
      SetEvents(at, WriteBits(mFds[at].events, writable), SetWritable(fd, writable));
      return NO_ERROR;
    }
  }
}
