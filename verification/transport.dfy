/** The bounded-retry register transport over the I2C master primitive
    (bme280_read_buf, bme280_read_byte, bme280_write_byte in bme280.c).

    The HAL primitive is an oracle: a phase is described by the sequence of
    outcomes of its successive calls, `true` when the primitive returned 0.
    Each phase starts a counter at `RetryCount`, calls the primitive, and
    on a failed call decrements the counter and calls again as long as the
    counter was not already 0; the phase fails when the counter ends at 0. */
module Transport {
  import opened FixedWidth
  import Registers

  /** Return codes of the driver: 0, -EIO and -EINVAL. The numeric errno
      values come from the platform headers. */
  datatype Status = Ok | Eio | Einval

  /** The largest number of primitive calls one phase makes. */
  const MaxCalls: nat := Registers.RetryCount + 1

  /** One phase: whether it succeeded and how many primitive calls it made. */
  datatype Phase = Phase(ok: bool, calls: nat)

  /** What the bus answers to one read transaction: the outcomes of the
      address-phase and data-phase calls, and the contents of the
      destination buffer when the transaction returns. The contents are
      taken as given whatever the outcome, which covers the stale or
      partial data a caller that ignores the status goes on to use. */
  datatype ReadReply = ReadReply(addr: seq<bool>, data: seq<bool>, bytes: seq<uint8>)

  /** What the bus answers to one write transaction. */
  datatype WriteReply = WriteReply(attempts: seq<bool>)

  /** The outcome of one transaction: the status returned and the number
      of primitive calls in each phase. */
  datatype Transaction = Transaction(status: Status, addrCalls: nat, dataCalls: nat)

  /** A reply that answers every call a phase can make, with `len` bytes. */
  predicate ReadShaped(reply: ReadReply, len: nat) {
    |reply.addr| >= MaxCalls && |reply.data| >= MaxCalls && |reply.bytes| == len
  }

  predicate WriteShaped(reply: WriteReply) {
    |reply.attempts| >= MaxCalls
  }

  /** One of the first `RetryCount` calls of a phase succeeds. */
  predicate Succeeds(attempts: seq<bool>)
    requires |attempts| >= Registers.RetryCount
  {
    exists i :: 0 <= i < Registers.RetryCount && attempts[i]
  }

  /** The retry loop entered with `count` retries left, about to make the
      call `attempts[i]`; yields the total number of calls made and the
      final value of the counter. */
  function Spin(attempts: seq<bool>, i: nat, count: nat): (r: (nat, nat))
    requires i + count < |attempts|
    ensures i < r.0 && r.0 + r.1 == i + count + 1
    ensures forall j :: i <= j < r.0 - 1 ==> !attempts[j]
    ensures r.1 != 0 ==> attempts[r.0 - 1]
    decreases count
  {
    if attempts[i] then (i + 1, count)
    else if count == 0 then (i + 1, 0)
    else Spin(attempts, i + 1, count - 1)
  }

  /** One phase. It succeeds exactly when one of the first `RetryCount`
      calls succeeds, stopping at that call; otherwise it makes
      `RetryCount + 1` calls, and a success on the last of them is still a
      failure. */
  function RunPhase(attempts: seq<bool>): (r: Phase)
    requires |attempts| >= MaxCalls
    ensures 1 <= r.calls <= MaxCalls
    ensures r.ok <==> Succeeds(attempts)
    ensures r.ok ==> 1 <= r.calls <= Registers.RetryCount && attempts[r.calls - 1]
    ensures forall j :: 0 <= j < r.calls - 1 ==> !attempts[j]
    ensures !r.ok ==> r.calls == MaxCalls
  {
    var (calls, count) := Spin(attempts, 0, Registers.RetryCount);
    Phase(count != 0, calls)
  }

  /** A read transaction (`bme280_read_buf`; `bme280_read_byte` is the same
      with one byte): the data phase runs only once the address phase has
      succeeded, each phase with its own retry counter. */
  function ReadBuf(reply: ReadReply): (t: Transaction)
    requires |reply.addr| >= MaxCalls && |reply.data| >= MaxCalls
    ensures t.status == Ok <==> Succeeds(reply.addr) && Succeeds(reply.data)
    ensures t.status != Ok ==> t.status == Eio
    ensures t.addrCalls == RunPhase(reply.addr).calls
    ensures !Succeeds(reply.addr) ==> t.addrCalls == MaxCalls && t.dataCalls == 0
    ensures Succeeds(reply.addr) ==> t.dataCalls == RunPhase(reply.data).calls
  {
    var address := RunPhase(reply.addr);
    if !address.ok then Transaction(Eio, address.calls, 0)
    else
      var data := RunPhase(reply.data);
      if !data.ok then Transaction(Eio, address.calls, data.calls)
      else Transaction(Ok, address.calls, data.calls)
  }

  /** A write transaction (`bme280_write_byte`): register and value go out
      in a single phase. */
  function WriteByte(reply: WriteReply): (t: Transaction)
    requires |reply.attempts| >= MaxCalls
    ensures t.status == Ok <==> Succeeds(reply.attempts)
    ensures t.status != Ok ==> t.status == Eio && t.addrCalls == MaxCalls
    ensures t.dataCalls == 0
  {
    var phase := RunPhase(reply.attempts);
    Transaction(if phase.ok then Ok else Eio, phase.calls, 0)
  }

  /** When the primitive fails on every call, a read transaction makes
      exactly `RetryCount + 1` address calls, no data call, and fails. */
  lemma PersistentFailure(reply: ReadReply)
    requires |reply.addr| >= MaxCalls && |reply.data| >= MaxCalls
    requires forall j :: 0 <= j < MaxCalls ==> !reply.addr[j]
    ensures ReadBuf(reply) == Transaction(Eio, MaxCalls, 0)
  {
  }

  /** A success on the sixth call of a phase is discarded. */
  lemma LateSuccessIgnored(attempts: seq<bool>)
    requires |attempts| >= MaxCalls
    requires forall j :: 0 <= j < Registers.RetryCount ==> !attempts[j]
    requires attempts[Registers.RetryCount]
    ensures RunPhase(attempts) == Phase(false, MaxCalls)
  {
  }
}
