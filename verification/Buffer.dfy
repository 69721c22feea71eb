/**
 The connection byte buffer: a vector with a reader index, compacted in place
 when that makes enough room and reallocated only when it does not.
 */
module Buffers {
  import opened Basics

  const MAX_SIZE: nat := 0x7FFF_FFFF_FFFF_FFFF
  const SIZE_TYPE_MAX: nat := 0xFFFF_FFFF_FFFF_FFFF

  class Buffer {
    /** The vector's elements and its capacity. */
    var storage: Bytes
    var capacity: nat
    var readerIndex: nat

    ghost predicate Valid()
      reads this
    {
      readerIndex <= |storage| <= capacity <= MAX_SIZE
    }

    /** The unread bytes: the only thing a client can observe. */
    function Contents(): Bytes
      requires readerIndex <= |storage|
      reads this
    {
      storage[readerIndex..]
    }

    constructor (initialCapacity: nat)
      requires initialCapacity <= MAX_SIZE
      ensures Valid() && Contents() == [] && capacity == initialCapacity
    {
      storage, capacity, readerIndex := [], initialCapacity, 0;
    }

    /** Whether an append gets its room: in place, by compaction, or by growth that the vector can still serve. */
    ghost predicate HasRoom(length: nat)
      requires Valid()
      reads this
    {
      || length == 0
      || |Contents()| + length <= capacity
      || (|Contents()| + length <= MAX_SIZE && 2 * capacity <= MAX_SIZE)
    }

    /** Adds at the back.  A refused append throws and changes nothing. */
    method Append(data: Bytes) returns (ok: bool)
      requires Valid()
      modifies this
      ensures Valid()
      ensures ok <==> old(HasRoom(|data|))
      ensures Contents() == if ok then old(Contents()) + data else old(Contents())
      ensures !ok ==> storage == old(storage) && readerIndex == old(readerIndex)
      ensures old(|Contents()|) + |data| <= old(capacity) || !ok ==> capacity == old(capacity)
      ensures old(|Contents()|) + |data| > old(capacity) && data != [] && ok ==>
                capacity == Max(old(|Contents()|) + |data|, 2 * old(capacity))
      ensures old(|Contents()|) + |data| <= MAX_SIZE / 2 ==> ok
    {
      if |data| == 0 {
        return true;
      }
      ok := PrepareAppend(|data|);
      if ok {
        storage := storage + data;
      }
    }

    /** Makes room behind the last byte without losing or reordering any unread byte. */
    method PrepareAppend(length: nat) returns (ok: bool)
      requires Valid() && 0 < length
      modifies this
      ensures Valid()
      ensures ok <==> old(HasRoom(length))
      ensures Contents() == old(Contents())
      ensures ok ==> |storage| + length <= capacity
      ensures !ok ==> storage == old(storage) && readerIndex == old(readerIndex)
      ensures old(|Contents()|) + length <= old(capacity) || !ok ==> capacity == old(capacity)
      ensures old(|Contents()|) + length > old(capacity) && ok ==>
                capacity == Max(old(|Contents()|) + length, 2 * old(capacity))
    {
      var readable := |storage| - readerIndex;
      var writable := capacity - |storage|;
      if length > MAX_SIZE - readable {
        return false;
      }
      if length <= writable {
        return true;
      }
      if length <= readerIndex + writable {
        storage := storage[readerIndex..];
        readerIndex := 0;
        return true;
      }
      var required := readable + length;
      var doubled := if capacity <= SIZE_TYPE_MAX / 2 then capacity * 2 else MAX_SIZE;
      var reserved := Max(required, doubled);
      if reserved > MAX_SIZE {
        return false;
      }
      storage := storage[readerIndex..];
      capacity := reserved;
      readerIndex := 0;
      return true;
    }

    method Retrieve(length: nat)
      requires Valid() && length <= |Contents()|
      modifies this
      ensures Valid()
      ensures Contents() == old(Contents())[length..] && capacity == old(capacity)
    {
      if length == |storage| - readerIndex {
        RetrieveAll();
        return;
      }
      readerIndex := readerIndex + length;
    }

    method RetrieveAll()
      requires readerIndex <= |storage| <= capacity <= MAX_SIZE
      modifies this
      ensures Valid()
      ensures Contents() == [] && capacity == old(capacity)
    {
      storage := [];
      readerIndex := 0;
    }
  }

  // ---- Whole runs ----

  datatype BufferCommand = Push(data: Bytes) | Take(length: nat) | TakeAll

  /** A byte queue with no storage at all; taking more than there is takes everything. */
  function QueueStep(queue: Bytes, command: BufferCommand): Bytes {
    match command
    case Push(data) => queue + data
    case Take(length) => if length <= |queue| then queue[length..] else []
    case TakeAll => []
  }

  function Queue(commands: seq<BufferCommand>): Bytes {
    if commands == [] then [] else QueueStep(Queue(commands[..|commands| - 1]), commands[|commands| - 1])
  }

  /** The same queue with a memory account: the bytes it holds and the bytes reserved for them. */
  datatype Account = Account(bytes: Bytes, reserved: nat)

  /** A push is refused only if it needs more memory and the vector cannot provide it. */
  predicate Admits(q: Account, command: BufferCommand) {
    match command
    case Push(data) =>
      var needed := |q.bytes| + |data|;
      data == [] || needed <= q.reserved || (needed <= MAX_SIZE && 2 * q.reserved <= MAX_SIZE)
    case _ => true
  }

  function AccountStep(q: Account, command: BufferCommand): Account {
    if !Admits(q, command) then q else
      var bytes := QueueStep(q.bytes, command);
      Account(bytes, if command.Push? && command.data != [] && |bytes| > q.reserved then Max(|bytes|, 2 * q.reserved) else q.reserved)
  }

  function AccountAfter(initial: nat, commands: seq<BufferCommand>): Account {
    if commands == [] then Account([], initial)
    else AccountStep(AccountAfter(initial, commands[..|commands| - 1]), commands[|commands| - 1])
  }

  method Execute(buffer: Buffer, command: BufferCommand) returns (ok: bool)
    requires buffer.Valid()
    modifies buffer
    ensures buffer.Valid()
    ensures ok == Admits(Account(old(buffer.Contents()), old(buffer.capacity)), command)
    ensures Account(buffer.Contents(), buffer.capacity)
         == AccountStep(Account(old(buffer.Contents()), old(buffer.capacity)), command)
  {
    ok := true;
    match command {
      case Push(data) => ok := buffer.Append(data);
      case Take(length) =>
        if length <= |buffer.Contents()| {
          buffer.Retrieve(length);
        } else {
          buffer.RetrieveAll();
        }
      case TakeAll => buffer.RetrieveAll();
    }
  }

  lemma {:induction false} AccountMore(initial: nat, commands: seq<BufferCommand>, n: nat)
    requires n < |commands|
    ensures AccountAfter(initial, commands[..n + 1]) == AccountStep(AccountAfter(initial, commands[..n]), commands[n])
  {
    hide AccountStep;
    assert commands[..n + 1][..n] == commands[..n];
  }

  lemma {:induction false} NothingYet(initial: nat)
    ensures AccountAfter(initial, []) == Account([], initial)
  {
  }

  /**
   The buffer over any sequence of operations: its unread bytes and its capacity are
   those of the accounted queue, and an append is refused exactly when that queue
   refuses it.
   */
  method Replay(initialCapacity: nat, commands: seq<BufferCommand>) returns (unread: seq<Bytes>, accepted: seq<bool>, reserved: seq<nat>)
    requires initialCapacity <= MAX_SIZE
    ensures |unread| == |accepted| == |reserved| == |commands|
    ensures forall i :: 0 <= i < |commands| ==> Account(unread[i], reserved[i]) == AccountAfter(initialCapacity, commands[..i + 1])
    ensures forall i :: 0 <= i < |commands| ==> accepted[i] == Admits(AccountAfter(initialCapacity, commands[..i]), commands[i])
  {
    hide Admits, AccountStep, AccountAfter;
    var buffer := new Buffer(initialCapacity);
    NothingYet(initialCapacity);
    unread, accepted, reserved := [], [], [];
    for n := 0 to |commands|
      invariant buffer.Valid() && fresh(buffer) && |unread| == n && |accepted| == n && |reserved| == n
      invariant Account(buffer.Contents(), buffer.capacity) == AccountAfter(initialCapacity, commands[..n])
      invariant forall i :: 0 <= i < n ==> Account(unread[i], reserved[i]) == AccountAfter(initialCapacity, commands[..i + 1])
      invariant forall i :: 0 <= i < n ==> accepted[i] == Admits(AccountAfter(initialCapacity, commands[..i]), commands[i])
    {
      AccountMore(initialCapacity, commands, n);
      var ok := Execute(buffer, commands[n]);
      unread, accepted, reserved := unread + [buffer.Contents()], accepted + [ok], reserved + [buffer.capacity];
    }
  }

  /**
   As long as a plain byte queue would stay within half the vector's maximum, no
   append is refused and the buffer is that plain queue, whatever its initial
   capacity.
   */
  lemma {:induction false} NeverRefused(initial: nat, commands: seq<BufferCommand>)
    requires forall i :: 0 <= i <= |commands| ==> |Queue(commands[..i])| <= MAX_SIZE / 2
    ensures AccountAfter(initial, commands).bytes == Queue(commands)
    ensures commands != [] ==> Admits(AccountAfter(initial, commands[..|commands| - 1]), commands[|commands| - 1])
  {
    if commands != [] {
      var n := |commands| - 1;
      assert forall i :: 0 <= i <= n ==> commands[..n][..i] == commands[..i];
      NeverRefused(initial, commands[..n]);
      assert commands[..|commands|] == commands;
      assert |Queue(commands)| <= MAX_SIZE / 2;
    }
  }
}
