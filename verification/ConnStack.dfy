/**
 The stack of wrappers `Hook.RoutedConnection` puts around a connection: a byte counter
 innermost, then the node's limiter, then the user's limiter.
 */
module ConnStack {
  import opened TokenBucket
  import opened RateLimiters
  import opened Counters

  newtype byte = x: int | 0 <= x < 256

  // The connection underneath: it may write any prefix and report any error.
  class RawConn {
    var sent: seq<byte>

    constructor ()
      ensures sent == []
    {
      sent := [];
    }

    method Write(b: seq<byte>) returns (n: nat, err: bool)
      modifies this
      ensures n <= |b| && sent == old(sent) + b[..n]
    {
      n :| 0 <= n <= |b|;
      err := *;
      sent := sent + b[..n];
    }
  }

  datatype Layer = CountsInto(storage: TrafficStorage) | LimitsBy(read: RateLimiter?, write: RateLimiter?)

  datatype Conn =
    | Raw(raw: RawConn)
    | Counted(inner: Conn, storage: TrafficStorage)
    | Limited(inner: Conn, readLimiter: RateLimiter?, writeLimiter: RateLimiter?)
  {
    ghost function Root(): RawConn {
      match this
      case Raw(raw) => raw
      case Counted(inner, _) => inner.Root()
      case Limited(inner, _, _) => inner.Root()
    }

    // The layers above the raw connection, innermost first.
    ghost function Layers(): seq<Layer> {
      match this
      case Raw(_) => []
      case Counted(inner, storage) => inner.Layers() + [CountsInto(storage)]
      case Limited(inner, r, w) => inner.Layers() + [LimitsBy(r, w)]
    }

    ghost function Storages(): set<TrafficStorage> {
      match this
      case Raw(_) => {}
      case Counted(inner, storage) => inner.Storages() + {storage}
      case Limited(inner, _, _) => inner.Storages()
    }

    ghost function WriteLimiters(): set<RateLimiter> {
      match this
      case Raw(_) => {}
      case Counted(inner, _) => inner.WriteLimiters()
      case Limited(inner, _, w) => if w == null then inner.WriteLimiters() else inner.WriteLimiters() + {w}
    }

    // No object serves two layers.
    ghost predicate Layered() {
      match this
      case Raw(_) => true
      case Counted(inner, storage) => inner.Layered() && storage !in inner.Storages()
      case Limited(inner, _, w) => inner.Layered() && (w == null || w !in inner.WriteLimiters())
    }
  }

  // A nil pair of limiters adds no layer.
  function NewRateLimitedConn(c: Conn, r: RateLimiter?, w: RateLimiter?): Conn {
    if r == null && w == null then c else Limited(c, r, w)
  }

  ghost function NonNull(l: RateLimiter?): set<RateLimiter> {
    if l == null then {} else {l}
  }

  // A connection without a user is left as it is: neither counted nor limited.
  function RoutedConnection(raw: RawConn, user: string, storage: TrafficStorage,
                            nodeRead: RateLimiter?, nodeWrite: RateLimiter?,
                            userRead: RateLimiter?, userWrite: RateLimiter?): (c: Conn)
    ensures c.Root() == raw
    ensures user == "" ==> c == Raw(raw) && c.Storages() == {} && c.WriteLimiters() == {} && c.Layered()
    ensures user != "" ==>
      && c.Storages() == {storage} && c.WriteLimiters() == NonNull(nodeWrite) + NonNull(userWrite)
      && (c.Layered() <==> (nodeWrite == null || nodeWrite != userWrite))
      && c.Layers() == [CountsInto(storage)]
           + (if nodeRead == null && nodeWrite == null then [] else [LimitsBy(nodeRead, nodeWrite)])
           + (if userRead == null && userWrite == null then [] else [LimitsBy(userRead, userWrite)])
  {
    if user == "" then Raw(raw)
    else
      var counted := Counted(Raw(raw), storage);
      assert counted.Root() == raw && counted.Storages() == {storage} && counted.WriteLimiters() == {} && counted.Layered();
      assert counted.Layers() == [CountsInto(storage)];
      var node := NewRateLimitedConn(counted, nodeRead, nodeWrite);
      assert node.Root() == raw && node.Storages() == {storage} && node.WriteLimiters() == NonNull(nodeWrite) && node.Layered();
      NewRateLimitedConn(node, userRead, userWrite)
  }

  ghost predicate Ready(c: Conn, clock: Clock)
    reads clock, c.WriteLimiters()
  {
    forall l :: l in c.WriteLimiters() ==> l.Valid() && l.last <= clock.now
  }

  // What writing to the stack does to one limiter that asked for `asked` bytes of which
  // `n` were delivered: it is charged all of them, and at most one chunk that was not.
  twostate predicate ChargedFor(l: RateLimiter, n: int, asked: int)
    reads l
  {
    && l.rate == old(l.rate) && l.burst == old(l.burst)
    && l.disabled == old(l.disabled) && l.closed == old(l.closed)
    && (if old(l.Limiting()) then
          && n <= l.charged - old(l.charged) <= n + CHUNK
          && (n == asked ==> l.charged == old(l.charged) + n)
        else l.charged == old(l.charged))
  }

  // Any stack over any connection delivers exactly the first n bytes, in order; every
  // counter in it grows by exactly n, and every limiter in it that is enabled is charged
  // at least n and at most one 64 KiB chunk more. A limiter never reports a short write
  // as a success.
  method Write(c: Conn, clock: Clock, b: seq<byte>) returns (n: nat, err: bool)
    requires c.Layered() && Ready(c, clock)
    requires forall l :: l in c.WriteLimiters() ==> allocated(l)
    requires forall s :: s in c.Storages() ==> allocated(s)
    modifies c.Root(), c.Storages()`down, c.WriteLimiters(), clock
    ensures Ready(c, clock) && old(clock.now) <= clock.now
    ensures n <= |b| && c.Root().sent == old(c.Root().sent) + b[..n]
    ensures forall s :: s in c.Storages() ==> s.down == old(s.down) + n
    ensures forall l :: l in c.WriteLimiters() ==> ChargedFor(l, n, |b|)
    ensures c.Limited? && c.writeLimiter != null && b != [] && !err ==> n == |b|
    decreases c, 2
  {
    match c
    case Raw(raw) =>
      n, err := raw.Write(b);
    case Counted(inner, storage) =>
      n, err := Write(inner, clock, b);
      if n > 0 {
        storage.down := storage.down + n;
      }
    case Limited(inner, _, w) =>
      if b == [] || w == null {
        n, err := Write(inner, clock, b);
        return;
      }
      n, err := LimitedWrite(c, clock, b);
  }

  // One chunk: wait for the limiter, then write what the inner stack takes of it.
  method WriteChunk(c: Conn, clock: Clock, chunk: seq<byte>) returns (n: nat, err: bool)
    requires c.Limited? && c.writeLimiter != null && 0 < |chunk| <= CHUNK
    requires c.Layered() && Ready(c, clock)
    requires forall l :: l in c.WriteLimiters() ==> allocated(l)
    requires forall s :: s in c.Storages() ==> allocated(s)
    modifies c.Root(), c.Storages()`down, c.WriteLimiters(), clock
    ensures Ready(c, clock) && old(clock.now) <= clock.now
    ensures n <= |chunk| && c.Root().sent == old(c.Root().sent) + chunk[..n]
    ensures forall s :: s in c.Storages() ==> s.down == old(s.down) + n
    ensures forall l :: l in c.WriteLimiters() ==> ChargedFor(l, n, |chunk|)
    ensures old(c.writeLimiter.closed) ==> n == 0 && err && clock.now == old(clock.now)
    decreases c, 0
  {
    var closed := c.writeLimiter.Wait(clock, |chunk|);
    if closed {
      assert chunk[..0] == [];
      return 0, true;
    }
    label waited:
    assert c.Root() == c.inner.Root() && c.Storages() == c.inner.Storages();
    assert c.Root().sent == old(c.Root().sent);
    assert forall l :: l in c.inner.WriteLimiters() ==> l != c.writeLimiter;
    n, err := Write(c.inner, clock, chunk);
    assert forall l :: l in c.inner.WriteLimiters() ==> old@waited(l.charged) == old(l.charged);
  }

  method LimitedWrite(c: Conn, clock: Clock, b: seq<byte>) returns (total: nat, err: bool)
    requires c.Limited? && c.writeLimiter != null && b != []
    requires c.Layered() && Ready(c, clock)
    requires forall l :: l in c.WriteLimiters() ==> allocated(l)
    requires forall s :: s in c.Storages() ==> allocated(s)
    modifies c.Root(), c.Storages()`down, c.WriteLimiters(), clock
    ensures Ready(c, clock) && old(clock.now) <= clock.now
    ensures total <= |b| && c.Root().sent == old(c.Root().sent) + b[..total]
    ensures forall s :: s in c.Storages() ==> s.down == old(s.down) + total
    ensures forall l :: l in c.WriteLimiters() ==> ChargedFor(l, total, |b|)
    ensures !err ==> total == |b|
    decreases c, 1
  {
    total := 0;
    assert b[..0] == [];
    while total < |b|
      invariant total <= |b| && Ready(c, clock) && old(clock.now) <= clock.now
      invariant c.Root().sent == old(c.Root().sent) + b[..total]
      invariant forall s :: s in c.Storages() ==> s.down == old(s.down) + total
      invariant forall l :: l in c.WriteLimiters() ==> ChargedFor(l, total, total)
    {
      var end := if total + CHUNK > |b| then |b| else total + CHUNK;
      var chunk := b[total..end];
      label before:
      var n, e := WriteChunk(c, clock, chunk);
      assert b[..total] + chunk[..n] == b[..total + n];
      forall l | l in c.WriteLimiters()
        ensures ChargedFor(l, total + n, if n == |chunk| then total + n else |b|)
      {
        assert ChargedFor@before(l, n, |chunk|);
      }
      total := total + n;
      if e || n != |chunk| {
        return total, true;
      }
    }
    return total, false;
  }
}
