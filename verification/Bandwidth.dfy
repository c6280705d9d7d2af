/**
  `RateLimitedStream`: each direction of a stream pays a shared token bucket for a chunk, waits if it must, and then
  lets the inner stream move at most one chunk. The inner stream is arbitrary: it may move bytes, move fewer than
  offered, fail or block. A refused payment leaves a pending permit whose size is fixed while the buffer may change.
*/
module Bandwidth {
  import opened Options
  import opened TokenBucket
  import opened Waiting
  import opened Net
  import Limiter

  const CHUNK := 16384

  /** What one transfer may cover of a buffer with this much left. */
  function Chunk(remaining: nat): nat {
    if remaining < CHUNK then remaining else CHUNK
  }

  /** A payment in progress: its size, and until when it sleeps; no instant before it was first polled. */
  datatype Permit = Permit(n: nat, sleepUntil: Option<real>)

  /** The inner stream's answer when it is offered a buffer. */
  datatype Inner = Moves(k: nat) | Fails | Blocks

  /**
    One attempt to get past the limiter, with what the world looks like then: what the buffer has left, the clock,
    whether the timer is late, and how the inner stream will answer if it is reached.
  */
  datatype Attempt = Attempt(remaining: nat, at: real, late: bool, inner: Inner)

  datatype Fate = Moved(k: nat) | Failed | Blocked | Empty

  datatype Outcome =
    | Idle                              // an empty buffer and nothing pending
    | Starved                           // waiting for tokens
    | Charged(n: nat, fate: Fate)       // paid, and what came of it

  /** An inner stream moves no more than the buffer it is offered. */
  predicate Honest(a: Attempt) {
    a.inner.Moves? ==> a.inner.k <= Chunk(a.remaining)
  }

  /** The tokens an attempt asks for, if it gets to ask. */
  function Asks(permit: Option<Permit>, a: Attempt): Option<nat> {
    match permit
    case None => if a.remaining == 0 then None else Some(Chunk(a.remaining))
    case Some(p) => if p.sleepUntil.Some? && (a.late || a.at < p.sleepUntil.value) then None else Some(p.n)
  }

  /** After paying `n`: the size of the transfer is computed from the buffer as it is now. */
  function Transfer(n: nat, a: Attempt): Outcome {
    Charged(n, if a.remaining == 0 then Empty else
               match a.inner
               case Moves(k) => Moved(k)
               case Fails => Failed
               case Blocks => Blocked)
  }

  datatype Result = Result(bucket: Bucket, permit: Option<Permit>, outcome: Outcome)

  /** One attempt: a `check_n` with no permit pending, or one poll of the pending payment. */
  function Step(c: Config, b: Bucket, permit: Option<Permit>, a: Attempt): Result
    requires c.rate > 0
  {
    match Asks(permit, a)
    case None => Result(b, permit, if permit.None? then Idle else Starved)
    case Some(n) =>
      var (b', ok) := Acquire(c, b, a.at, n);
      if ok then
        Result(b', None, Transfer(n, a))
      else
        Result(b', Some(Permit(n, if permit.None? then None else Some(a.at + WaitFor(c, b', n)))), Starved)
  }

  /** A whole poll call: a refused `check_n` is followed at once by the first poll of the payment it leaves behind. */
  function PollOnce(c: Config, b: Bucket, permit: Option<Permit>, a: Attempt, again: real): (r: Result)
    requires c.rate > 0
    ensures r.permit.Some? ==> r.permit.value.sleepUntil.Some?
  {
    var r := Step(c, b, permit, a);
    if r.permit.Some? && r.permit.value.sleepUntil.None? then
      Step(c, r.bucket, r.permit, a.(at := again))
    else
      r
  }

  // ----- The object ---------------------------------------------------------------------

  /** A read buffer over a fixed array; the filled part only grows. */
  class ReadBuf {
    const data: array<byte>
    var filled: nat

    ghost predicate Valid()
      reads this
    {
      filled <= data.Length
    }

    ghost function Contents(): seq<byte>
      reads this, data
      requires Valid()
    {
      data[..filled]
    }

    constructor (data: array<byte>)
      ensures this.data == data && Valid() && Contents() == []
    {
      this.data := data;
      this.filled := 0;
    }

    /** The inner stream writes after the filled part, and the filled part is advanced over it. */
    method Append(bytes: seq<byte>)
      requires Valid() && filled + |bytes| <= data.Length
      modifies this, data
      ensures Valid() && Contents() == old(Contents()) + bytes
    {
      for i := 0 to |bytes|
        invariant filled == old(filled)
        invariant data[..filled + i] == old(Contents()) + bytes[..i]
      {
        data[filled + i] := bytes[i];
      }
      filled := filled + |bytes|;
    }
  }

  /** What a poll returns: `Ready(n)` after moving `n` bytes. */
  datatype Poll = Pending | Ready(n: nat) | Error

  function Answer(o: Outcome): Poll {
    match o
    case Idle => Ready(0)
    case Starved => Pending
    case Charged(_, Moved(k)) => Ready(k)
    case Charged(_, Failed) => Error
    case Charged(_, Blocked) => Pending
    case Charged(_, Empty) => Ready(0)
  }

  /** The inner stream's answer to a read, with the bytes. */
  datatype InnerRead = Data(bytes: seq<byte>) | ReadFails | ReadBlocks
  {
    function Size(): Inner {
      match this
      case Data(bytes) => Moves(|bytes|)
      case ReadFails => Fails
      case ReadBlocks => Blocks
    }
  }

  class RateLimitedStream {
    const readLimiter: Limiter.SimpleLimiter?
    const writeLimiter: Limiter.SimpleLimiter?
    var readPermit: Option<Permit>
    var writePermit: Option<Permit>

    constructor (readLimiter: Limiter.SimpleLimiter?, writeLimiter: Limiter.SimpleLimiter?)
      ensures this.readLimiter == readLimiter && this.writeLimiter == writeLimiter
      ensures readPermit == None && writePermit == None
    {
      this.readLimiter := readLimiter;
      this.writeLimiter := writeLimiter;
      this.readPermit := None;
      this.writePermit := None;
    }

    /**
      Polls the pending payment of one direction: whether it is paid now, and what is pending if not. A payment sleeps
      until the computed instant; when it wakes it retries.
    */
    static method PollPermit(limiter: Limiter.SimpleLimiter, p: Permit, now: real, late: bool, ghost a: Attempt)
      returns (paid: bool, permit: Option<Permit>)
      requires limiter.ratePerSec > 0 && a.at == now && a.late == late
      modifies limiter
      ensures Step(limiter.Cfg(), old(limiter.State()), Some(p), a)
           == Result(limiter.State(), permit, if paid then Transfer(p.n, a) else Starved)
      ensures paid ==> permit == None
    {
      if p.sleepUntil.Some? && (late || now < p.sleepUntil.value) {
        return false, Some(p);
      }
      paid := limiter.CheckN(p.n, now);
      if paid {
        permit := None;
      } else {
        var secondsNeeded := (p.n as real - limiter.tokens) / limiter.ratePerSec as real;
        permit := Some(Permit(p.n, Some(now + secondsNeeded)));
      }
    }

    /** `poll_read` at `now`; if a payment has to be started, it is first polled at `again`. */
    method PollRead(buf: ReadBuf, now: real, again: real, late: bool, inner: InnerRead) returns (r: Poll)
      requires buf.Valid() && (readLimiter != null ==> readLimiter.ratePerSec > 0)
      requires inner.Data? ==>
                 var left := buf.data.Length - buf.filled;
                 |inner.bytes| <= if readLimiter == null then left else Chunk(left)
      modifies this`readPermit, readLimiter, buf, buf.data
      ensures buf.Valid()
      ensures readLimiter == null ==>
                && readPermit == old(readPermit)
                && r == (match inner
                         case Data(bytes) => Ready(|bytes|)
                         case ReadFails => Error
                         case ReadBlocks => Pending)
                && buf.Contents() == old(buf.Contents()) + (if inner.Data? then inner.bytes else [])
      ensures readLimiter != null ==>
                var a := Attempt(buf.data.Length - old(buf.filled), now, late, inner.Size());
                var p := PollOnce(readLimiter.Cfg(), old(readLimiter.State()), old(readPermit), a, again);
                && readLimiter.State() == p.bucket && readPermit == p.permit && r == Answer(p.outcome)
                && (p.outcome.Charged? && p.outcome.fate.Moved? ==>
                      inner.Data? && buf.Contents() == old(buf.Contents()) + inner.bytes)
                && (!(p.outcome.Charged? && p.outcome.fate.Moved?) ==> buf.Contents() == old(buf.Contents()))
      ensures readLimiter != null ==>
                var left := buf.data.Length - old(buf.filled);
                var p := PollOnce(readLimiter.Cfg(), old(readLimiter.State()), old(readPermit),
                                  Attempt(left, now, late, inner.Size()), again);
                var reached := p.outcome.Charged? && left > 0;
                && (r.Error? <==> reached && inner.ReadFails?)
                && (r.Pending? <==> readPermit.Some? || (reached && inner.ReadBlocks?))
                && (r.Ready? <==> (reached && inner.Data?) || (left == 0 && readPermit == None))
                && (r.Ready? && left > 0 ==>
                      r.n == |inner.bytes| && buf.Contents() == old(buf.Contents()) + inner.bytes)
                && (r.Ready? && left == 0 ==> r.n == 0)
                && (!r.Ready? || left == 0 ==> buf.Contents() == old(buf.Contents()))
    {
      if readLimiter != null {
        var limiter: Limiter.SimpleLimiter := readLimiter;
        ghost var a := Attempt(buf.data.Length - buf.filled, now, late, inner.Size());
        ghost var first := Step(limiter.Cfg(), limiter.State(), readPermit, a);
        var started := false;
        while true
          invariant buf.filled == old(buf.filled) && buf.Contents() == old(buf.Contents())
          invariant !started ==> readPermit == old(readPermit) && limiter.State() == old(limiter.State())
          invariant started ==>
                      && first.permit.Some? && first.permit.value.sleepUntil.None?
                      && readPermit == first.permit && limiter.State() == first.bucket
          decreases !started
        {
          if readPermit.Some? {
            var clock := if started then again else now;
            var paid, permit := PollPermit(limiter, readPermit.value, clock, late, a.(at := clock));
            readPermit := permit;
            if !paid {
              return Pending;
            }
          } else {
            var remaining := buf.data.Length - buf.filled;
            if remaining == 0 {
              return Ready(0);
            }
            var toRead := Chunk(remaining);
            var ok := limiter.CheckN(toRead, now);
            if !ok {
              readPermit := Some(Permit(toRead, None));
              started := true;
              continue;
            }
          }
          var remaining := buf.data.Length - buf.filled;
          if remaining == 0 {
            return Ready(0);
          }
          break;
        }
      }
      match inner {
        case Data(bytes) =>
          buf.Append(bytes);
          return Ready(|bytes|);
        case ReadFails =>
          return Error;
        case ReadBlocks =>
          return Pending;
      }
    }

    /**
      `poll_write` of a buffer: at most one chunk of it reaches the inner stream, from its start, and the count that was
      taken is returned; `sent` are the bytes taken.
    */
    method PollWrite(buf: seq<byte>, now: real, again: real, late: bool, inner: Inner)
      returns (r: Poll, sent: seq<byte>)
      requires writeLimiter != null ==> writeLimiter.ratePerSec > 0
      requires inner.Moves? ==> inner.k <= if writeLimiter == null then |buf| else Chunk(|buf|)
      modifies this`writePermit, writeLimiter
      ensures writeLimiter == null ==>
                && writePermit == old(writePermit)
                && r == (match inner case Moves(k) => Ready(k) case Fails => Error case Blocks => Pending)
      ensures writeLimiter != null ==>
                var p := PollOnce(writeLimiter.Cfg(), old(writeLimiter.State()), old(writePermit),
                                  Attempt(|buf|, now, late, inner), again);
                writeLimiter.State() == p.bucket && writePermit == p.permit && r == Answer(p.outcome)
      ensures writeLimiter != null ==>
                var p := PollOnce(writeLimiter.Cfg(), old(writeLimiter.State()), old(writePermit),
                                  Attempt(|buf|, now, late, inner), again);
                var reached := p.outcome.Charged? && |buf| > 0;
                && (r.Error? <==> reached && inner.Fails?)
                && (r.Pending? <==> writePermit.Some? || (reached && inner.Blocks?))
                && (r.Ready? <==> (reached && inner.Moves?) || (|buf| == 0 && writePermit == None))
                && (r.Ready? ==> r.n == if |buf| == 0 then 0 else inner.k)
      ensures r.Ready? ==> r.n <= |buf|
      ensures sent == if r.Ready? then buf[..r.n] else []
    {
      var offered := buf;
      sent := [];
      if writeLimiter != null {
        var limiter: Limiter.SimpleLimiter := writeLimiter;
        ghost var a := Attempt(|buf|, now, late, inner);
        ghost var first := Step(limiter.Cfg(), limiter.State(), writePermit, a);
        var started := false;
        while true
          invariant !started ==> writePermit == old(writePermit) && limiter.State() == old(limiter.State())
          invariant started ==>
                      && first.permit.Some? && first.permit.value.sleepUntil.None?
                      && writePermit == first.permit && limiter.State() == first.bucket
          decreases !started
        {
          if writePermit.Some? {
            var clock := if started then again else now;
            var paid, permit := PollPermit(limiter, writePermit.value, clock, late, a.(at := clock));
            writePermit := permit;
            if !paid {
              return Pending, [];
            }
          } else {
            if |buf| == 0 {
              return Ready(0), [];
            }
            var toWrite := Chunk(|buf|);
            var ok := limiter.CheckN(toWrite, now);
            if !ok {
              writePermit := Some(Permit(toWrite, None));
              started := true;
              continue;
            }
          }
          if |buf| == 0 {
            return Ready(0), [];
          }
          offered := buf[..Chunk(|buf|)];
          break;
        }
      }
      match inner {
        case Moves(k) =>
          return Ready(k), offered[..k];
        case Fails =>
          return Error, [];
        case Blocks =>
          return Pending, [];
      }
    }
  }
}
