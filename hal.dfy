/** The platform layer the drivers call through: SPI, GPIO, allocation and the
    per-channel state call of the MAX22190. Nothing here is implemented; every call is
    recorded in an ordered trace and answered by an oracle indexed by the call's position
    in the trace, so a proof about a driver holds for every possible hardware behaviour. */
module Hal {

  type byte = bv8

  // Error codes as the drivers return them (negated errno values).
  const ENOMEM: int := -12
  const EFAULT: int := -14
  const ENODEV: int := -19
  const EINVAL: int := -22

  /** The role of a GPIO line inside a device. A call on an optional line that the device
      does not have stands for the same call made with a NULL descriptor. */
  datatype Pin = En | Sample | A0 | A1 | Res0 | Res1 | Mdc | Mdio

  /** One call from a driver into the platform layer. */
  datatype Event =
    | Alloc                              // calloc / no_os_calloc
    | Free                               // free / no_os_free of the descriptor
    | SpiInit
    | SpiRemove
    | SpiTransfer(tx: seq<byte>)         // no_os_spi_transfer of one message, cs_change set
    | SpiWriteAndRead(tx: seq<byte>)     // no_os_spi_write_and_read
    | GpioGet(pin: Pin)
    | GpioGetOptional(pin: Pin)
    | GpioRemove(pin: Pin)
    | GpioSetValue(pin: Pin, value: int)
    | GpioOutput(pin: Pin, value: int)   // no_os_gpio_direction_output
    | GpioInput(pin: Pin)                // no_os_gpio_direction_input
    | GpioGetValue(pin: Pin)
    | ChanState(ch: nat, on: bool)       // max22190_chan_state / max22190_ch_state

  /** What the platform answers to one call: the status it returns (0 is success), the
      bytes a transfer clocks in, whether an optional GPIO exists, and the value a
      GPIO read leaves in its destination. */
  datatype Reply = Reply(status: int, rx: seq<byte>, present: bool, level: byte)

  datatype Result<T> = Ok(value: T) | Err(code: int)

  /** A pointer argument that may be NULL. */
  datatype Option<T> = None | Some(value: T)

  /** The `len` bytes a transfer clocks in according to reply `r` (missing bytes read 0). */
  function Received(r: Reply, len: nat): (rx: seq<byte>)
    ensures |rx| == len
    ensures forall i :: 0 <= i < len && i < |r.rx| ==> rx[i] == r.rx[i]
    ensures forall i :: |r.rx| <= i < len ==> rx[i] == 0
  {
    seq(len, i requires 0 <= i < len => if i < |r.rx| then r.rx[i] else 0)
  }

  /** The index of the first of `count` consecutive calls, starting at trace position `n`,
      that the oracle fails, or `count` when all of them succeed. */
  function FirstFailure(o: nat -> Reply, n: nat, count: nat): (k: nat)
    ensures k <= count
    ensures forall j :: n <= j < n + k ==> o(j).status == 0
    ensures k < count ==> o(n + k).status != 0
    decreases count
  {
    if count == 0 || o(n).status != 0 then 0 else 1 + FirstFailure(o, n + 1, count - 1)
  }

  /** The status the oracle gives the call at trace position `j`. */
  function Status(o: nat -> Reply, j: nat): int
  {
    o(j).status
  }

  /** Every call at trace positions `n` .. `n + count - 1` succeeds. */
  predicate AllSucceed(o: nat -> Reply, n: nat, count: nat)
  {
    forall j :: n <= j < n + count ==> Status(o, j) == 0
  }

  /** A run of calls succeeds exactly when both of its parts do. */
  lemma AllSucceedSplit(o: nat -> Reply, n: nat, a: nat, b: nat)
    ensures AllSucceed(o, n, a + b) <==> AllSucceed(o, n, a) && AllSucceed(o, n + a, b)
  {
  }

  /** Calls that all succeeded, followed by a run that succeeds exactly when its own calls
      do (and `extra` holds), give a run with the same property. */
  lemma PrefixedSucceedsIff(o: nat -> Reply, n: nat, pre: seq<Event>, r: Run, extra: bool)
    requires AllSucceed(o, n, |pre|)
    requires r.ret == 0 <==> AllSucceed(o, n + |pre|, |r.events|) && extra
    ensures Prefixed(pre, r).ret == 0 <==> AllSucceed(o, n, |Prefixed(pre, r).events|) && extra
  {
    AllSucceedSplit(o, n, |pre|, |r.events|);
  }

  /** One failing call inside a run of calls makes the run fail. */
  lemma FailureBreaks(o: nat -> Reply, n: nat, count: nat, j: nat)
    requires n <= j < n + count && o(j).status != 0
    ensures !AllSucceed(o, n, count)
  {
    assert Status(o, j) != 0;
  }

  /** The first failure is the only index with all earlier calls successful and itself
      failing (or equal to `count`). */
  lemma {:induction false} FirstFailureUnique(o: nat -> Reply, n: nat, count: nat, k: nat)
    requires k <= count
    requires forall j :: n <= j < n + k ==> o(j).status == 0
    requires k < count ==> o(n + k).status != 0
    ensures FirstFailure(o, n, count) == k
    decreases count
  {
    if count != 0 && o(n).status == 0 {
      assert k != 0;
      FirstFailureUnique(o, n + 1, count - 1, k - 1);
    }
  }

  /** The calls `ChanState(0, on)` .. `ChanState(count - 1, on)`, in index order. */
  function ChanOps(count: nat, on: bool): (s: seq<Event>)
    ensures |s| == count
    ensures forall i :: 0 <= i < count ==> s[i] == ChanState(i, on)
  {
    seq(count, i requires 0 <= i < count => ChanState(i, on))
  }

  lemma ChanOpsSnoc(count: nat, on: bool)
    ensures ChanOps(count + 1, on) == ChanOps(count, on) + [ChanState(count, on)]
  {
  }

  lemma AppendAssoc<T>(a: seq<T>, b: seq<T>, c: seq<T>)
    ensures a + (b + c) == (a + b) + c
  {
  }

  /** Taking one more element of `s` after the head `x`. */
  lemma PrefixSnoc<T>(x: T, s: seq<T>, i: nat)
    requires 0 < i <= |s|
    ensures ([x] + s[..i])[..i] == [x] + s[..i - 1] && ([x] + s[..i])[i] == s[i - 1]
  {
  }

  /** A suffix of `s` is its first element followed by the rest. */
  lemma SuffixCons<T>(s: seq<T>, j: nat)
    requires j < |s|
    ensures s[j..] == [s[j]] + s[j + 1..]
  {
  }

  /** The calls a driver makes and the status it returns. */
  datatype Run = Run(events: seq<Event>, ret: int)

  /** The run `r` after the calls `pre`. */
  function Prefixed(pre: seq<Event>, r: Run): Run
  {
    Run(pre + r.events, r.ret)
  }

  /** Calls that acquire a resource the driver must give back. */
  predicate IsAcquire(e: Event)
  {
    e.Alloc? || e.SpiInit? || e.GpioGet? || e.GpioGetOptional?
  }

  /** Calls that give a resource back. */
  predicate IsRelease(e: Event)
  {
    e.Free? || e.SpiRemove? || e.GpioRemove?
  }

  /** The call that gives back what `e` acquired. */
  function ReleaseOf(e: Event): (r: Event)
    requires IsAcquire(e)
    ensures IsRelease(r)
  {
    match e
    case Alloc => Free
    case SpiInit => SpiRemove
    case GpioGet(p) => GpioRemove(p)
    case GpioGetOptional(p) => GpioRemove(p)
  }

  /** The acquiring calls of `s`, in order. */
  function Acquisitions(s: seq<Event>): (a: seq<Event>)
    ensures forall i :: 0 <= i < |a| ==> IsAcquire(a[i])
    ensures |a| <= |s|
  {
    if s == [] then []
    else Acquisitions(s[..|s| - 1]) + (if IsAcquire(s[|s| - 1]) then [s[|s| - 1]] else [])
  }

  /** The releasing calls of `s`, in order. */
  function Releases(s: seq<Event>): (r: seq<Event>)
    ensures forall i :: 0 <= i < |r| ==> IsRelease(r[i])
    ensures |r| <= |s|
  {
    if s == [] then []
    else Releases(s[..|s| - 1]) + (if IsRelease(s[|s| - 1]) then [s[|s| - 1]] else [])
  }

  /** Giving back the resources `a` in the reverse of the order they were acquired. */
  function Unwind(a: seq<Event>): (u: seq<Event>)
    requires forall i :: 0 <= i < |a| ==> IsAcquire(a[i])
    ensures |u| == |a|
    ensures forall i :: 0 <= i < |a| ==> u[i] == ReleaseOf(a[|a| - 1 - i])
  {
    if a == [] then [] else [ReleaseOf(a[|a| - 1])] + Unwind(a[..|a| - 1])
  }

  /** A failed run ends by unwinding: the calls up to the failing one release nothing, and
      the calls after it give back, newest first, exactly what the calls before the failing
      one acquired (the failing call itself acquired nothing). */
  predicate UnwindsOnFailure(events: seq<Event>)
  {
    exists m | 0 < m <= |events| :: FailsAt(events, m)
  }

  /** `events[m - 1]` is the failing call of a run that unwinds on failure. */
  predicate FailsAt(events: seq<Event>, m: int)
  {
    0 < m <= |events| && Releases(events[..m]) == []
      && events[m..] == Unwind(Acquisitions(events[..m - 1]))
  }

  lemma {:induction false} AcquisitionsAppend(s: seq<Event>, t: seq<Event>)
    ensures Acquisitions(s + t) == Acquisitions(s) + Acquisitions(t)
    decreases |t|
  {
    if t == [] {
      assert s + t == s;
    } else {
      assert (s + t)[..|s + t| - 1] == s + t[..|t| - 1];
      AcquisitionsAppend(s, t[..|t| - 1]);
    }
  }

  lemma {:induction false} ReleasesAppend(s: seq<Event>, t: seq<Event>)
    ensures Releases(s + t) == Releases(s) + Releases(t)
    decreases |t|
  {
    if t == [] {
      assert s + t == s;
    } else {
      assert (s + t)[..|s + t| - 1] == s + t[..|t| - 1];
      ReleasesAppend(s, t[..|t| - 1]);
    }
  }

  /** A call that neither acquires nor releases anything. */
  predicate IsNeutral(e: Event)
  {
    !IsAcquire(e) && !IsRelease(e)
  }

  /** Appending calls that neither acquire nor release leaves both accounts unchanged. */
  lemma {:induction false} AppendNeutral(s: seq<Event>, t: seq<Event>)
    requires forall i :: 0 <= i < |t| ==> IsNeutral(t[i])
    ensures Acquisitions(s + t) == Acquisitions(s) && Releases(s + t) == Releases(s)
    decreases |t|
  {
    if t != [] {
      assert (s + t)[..|s + t| - 1] == s + t[..|t| - 1];
      AppendNeutral(s, t[..|t| - 1]);
    } else {
      assert s + t == s;
    }
  }

  /** A sequence of acquiring calls is its own account of acquisitions and releases none. */
  lemma {:induction false} AllAcquire(s: seq<Event>)
    requires forall i :: 0 <= i < |s| ==> IsAcquire(s[i])
    ensures Acquisitions(s) == s && Releases(s) == []
  {
    if s != [] {
      AllAcquire(s[..|s| - 1]);
      assert s[..|s| - 1] + [s[|s| - 1]] == s;
    }
  }

  /** A sequence of releasing calls is its own account of releases. */
  lemma {:induction false} AllRelease(s: seq<Event>)
    requires forall i :: 0 <= i < |s| ==> IsRelease(s[i])
    ensures Releases(s) == s
  {
    if s != [] {
      AllRelease(s[..|s| - 1]);
      assert s[..|s| - 1] + [s[|s| - 1]] == s;
    }
  }

  /** A run whose calls after the failing call `events[m - 1]` are the unwinding of the
      calls before it, none of which releases anything, unwinds on failure. */
  lemma UnwindsAt(pre: seq<Event>, failing: Event)
    requires Releases(pre) == [] && !IsRelease(failing)
    ensures UnwindsOnFailure(pre + [failing] + Unwind(Acquisitions(pre)))
  {
    var events := pre + [failing] + Unwind(Acquisitions(pre));
    var m := |pre| + 1;
    assert events[..m] == pre + [failing];
    assert events[..m - 1] == pre;
    ReleasesAppend(pre, [failing]);
    assert Releases([failing]) == [];
    assert events[m..] == Unwind(Acquisitions(pre));
    assert FailsAt(events, m);
  }

  /** `UnwindsAt` for a run given as a whole: `events` is `pre`, the failing call and the
      unwinding `tail`. */
  lemma UnwindsAtRun(pre: seq<Event>, failing: Event, tail: seq<Event>, events: seq<Event>)
    requires Releases(pre) == [] && !IsRelease(failing)
    requires tail == Unwind(Acquisitions(pre)) && events == pre + [failing] + tail
    ensures UnwindsOnFailure(events)
  {
    UnwindsAt(pre, failing);
  }

  /** The unwinding tail of a goto ladder: each release is called and its status ignored;
      the function returns the error that caused the unwinding. */
  method Release(hw: Platform, calls: seq<Event>, err: int) returns (ret: int)
    modifies hw
    ensures hw.trace == old(hw.trace) + calls && ret == err
  {
    var i := 0;
    while i < |calls|
      invariant 0 <= i <= |calls|
      invariant hw.trace == old(hw.trace) + calls[..i]
    {
      var _ := hw.Call(calls[i]);
      assert calls[..i + 1] == calls[..i] + [calls[i]];
      i := i + 1;
    }
    assert calls[..i] == calls;
    ret := err;
  }

  class Platform {
    var trace: seq<Event>
    const oracle: nat -> Reply

    constructor (oracle: nat -> Reply)
      ensures trace == [] && this.oracle == oracle
    {
      this.oracle := oracle;
      trace := [];
    }

    /** The reply the next call will get. */
    function Next(): Reply
      reads this
    {
      oracle(|trace|)
    }

    /** A call whose only answer is its status. */
    method Call(e: Event) returns (status: int)
      modifies this
      ensures trace == old(trace) + [e]
      ensures status == old(Next()).status
    {
      status := Next().status;
      trace := trace + [e];
    }

    /** no_os_gpio_get_optional: the status and whether the line exists. */
    method GetOptional(p: Pin) returns (status: int, present: bool)
      modifies this
      ensures trace == old(trace) + [GpioGetOptional(p)]
      ensures status == old(Next()).status && present == old(Next()).present
    {
      status, present := Next().status, Next().present;
      trace := trace + [GpioGetOptional(p)];
    }

    /** no_os_gpio_get_value: the status and the value left in the destination. */
    method GetValue(p: Pin) returns (status: int, level: byte)
      modifies this
      ensures trace == old(trace) + [GpioGetValue(p)]
      ensures status == old(Next()).status && level == old(Next()).level
    {
      status, level := Next().status, Next().level;
      trace := trace + [GpioGetValue(p)];
    }

    /** One full-duplex SPI message over the first `len` bytes of `buf`; when `rx` the
        received bytes overwrite them (the message's rx buffer is `buf` itself). */
    method Transfer(buf: array<byte>, len: nat, rx: bool) returns (status: int)
      requires len <= buf.Length
      modifies this, buf
      ensures trace == old(trace) + [SpiTransfer(old(buf[..len]))]
      ensures status == old(Next()).status
      ensures buf[..] == if rx then Received(old(Next()), len) + old(buf[len..]) else old(buf[..])
    {
      var r := Next();
      status := r.status;
      trace := trace + [SpiTransfer(buf[..len])];
      if rx {
        var got := Received(r, len);
        forall i | 0 <= i < len {
          buf[i] := got[i];
        }
        assert buf[..] == got + old(buf[len..]);
      }
    }

    /** no_os_spi_write_and_read: sends `tx` and returns the bytes clocked in. */
    method WriteAndRead(tx: seq<byte>) returns (status: int, rx: seq<byte>)
      modifies this
      ensures trace == old(trace) + [SpiWriteAndRead(tx)]
      ensures status == old(Next()).status && rx == Received(old(Next()), |tx|)
    {
      status, rx := Next().status, Received(Next(), |tx|);
      trace := trace + [SpiWriteAndRead(tx)];
    }
  }
}
