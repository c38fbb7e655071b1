/**
 * The two poll loops of src/lib.rs, over any poll that issues one fixed
 * frame: `await_machine_state`, which polls until a wanted value shows, and
 * the debounce of `rx_bytes_available`, which polls until a count above
 * zero shows twice in a row.  Each loop is given at most `fuel` polls.
 */
module Polls {
  import opened Wrappers
  import opened LowLevel
  import opened Errors

  /**
   * `poll` adds exactly the frame `f` to whatever trace it is given, and
   * never reports a timeout of its own.
   */
  ghost predicate Issues<T>(poll: Trace -> Run<T>, f: Frame) {
    forall t :: poll(t).trace == t + [f] && poll(t).result != Failure(Timeout)
  }

  /** `n` copies of the frame `f`: what `n` polls add to the trace. */
  function Reads(f: Frame, n: nat): (t: Trace)
    ensures |t| == n
    ensures forall i :: 0 <= i < n ==> t[i] == f
    decreases n
  {
    if n == 0 then [] else [f] + Reads(f, n - 1)
  }

  /** One more read in front of `n` reads. */
  lemma ReadsCons(tr: Trace, f: Frame, n: nat)
    ensures (tr + [f]) + Reads(f, n) == tr + Reads(f, n + 1)
  {
    assert Reads(f, n + 1) == [f] + Reads(f, n);
  }

  /** One more read behind `n` reads. */
  lemma {:induction false} ReadsSnoc(f: Frame, n: nat)
    ensures Reads(f, n + 1) == Reads(f, n) + [f]
    decreases n
  {
    if n > 0 {
      ReadsSnoc(f, n - 1);
      assert Reads(f, n + 1) == [f] + (Reads(f, n - 1) + [f]);
    }
  }

  /** Reads of a frame that is no strobe issue no strobe. */
  lemma {:induction false} ReadsNoStrobe(f: Frame, n: nat)
    requires StrobeOf(f) == []
    ensures Strobes(Reads(f, n)) == []
    decreases n
  {
    if n > 0 {
      ReadsSnoc(f, n - 1);
      ReadsNoStrobe(f, n - 1);
      StrobesSnoc(Reads(f, n - 1), f);
    }
  }

  /** Polls issue no strobe when their frame is none. */
  lemma ReadsIssueNoStrobe(tr: Trace, f: Frame, n: nat)
    requires StrobeOf(f) == []
    ensures Strobes(tr + Reads(f, n)) == Strobes(tr)
  {
    StrobesAppend(tr, Reads(f, n));
    ReadsNoStrobe(f, n);
  }

  /** A trace that only adds polls of a frame that is no strobe issues the strobes it started with. */
  lemma PollsIssueNoStrobe(tr: Trace, f: Frame, t: Trace)
    requires StrobeOf(f) == []
    requires |tr| <= |t| && t == tr + Reads(f, |t| - |tr|)
    ensures Strobes(t) == Strobes(tr)
  {
    ReadsIssueNoStrobe(tr, f, |t| - |tr|);
  }

  /** What the poll issued after `k` earlier polls from `tr` returns. */
  function PollAt<T>(poll: Trace -> Run<T>, f: Frame, tr: Trace, k: nat): Result<T, Error>
    decreases k
  {
    if k == 0 then poll(tr).result else PollAt(poll, f, tr + [f], k - 1)
  }

  /** The `k`-th poll is the poll on the trace `k` polls leave. */
  lemma {:induction false} PollAtIsPoll<T>(poll: Trace -> Run<T>, f: Frame, tr: Trace, k: nat)
    ensures PollAt(poll, f, tr, k) == poll(tr + Reads(f, k)).result
    decreases k
  {
    if k == 0 {
      assert tr + Reads(f, 0) == tr;
    } else {
      PollAtIsPoll(poll, f, tr + [f], k - 1);
      ReadsCons(tr, f, k - 1);
    }
  }

  // ---------------------------------------------------------------------
  // await_machine_state
  // ---------------------------------------------------------------------

  /** Each of the `n` polls from `tr` returned a value other than `target`. */
  ghost predicate MissesFrom<T>(poll: Trace -> Run<T>, f: Frame, tr: Trace, target: T, n: nat)
    decreases n
  {
    n == 0
    || (PollAt(poll, f, tr, 0).Success? && PollAt(poll, f, tr, 0).value != target
        && MissesFrom(poll, f, tr + [f], target, n - 1))
  }

  /**
   * `await_machine_state`: poll until the value is `target`.  It adds
   * nothing but polls; every poll before the last returned a value other
   * than the target, and the last returned the target (success) or an
   * error (passed on); on a timeout every poll missed.
   */
  function Await<T(==)>(poll: Trace -> Run<T>, f: Frame, tr: Trace, target: T, fuel: nat): (r: Run<()>)
    requires Issues(poll, f)
    ensures |tr| <= |r.trace| <= |tr| + fuel
    ensures r.trace == tr + Reads(f, |r.trace| - |tr|)
    ensures r.result == Failure(Timeout) ==> |r.trace| == |tr| + fuel && MissesFrom(poll, f, tr, target, fuel)
    ensures r.result != Failure(Timeout) ==>
      var k := |r.trace| - |tr| - 1;
      k >= 0 && MissesFrom(poll, f, tr, target, k)
      && (r.result.Success? ==> PollAt(poll, f, tr, k) == Success(target))
      && (r.result.Failure? ==> PollAt(poll, f, tr, k) == Failure(r.result.error))
    decreases fuel
  {
    if fuel == 0 then Run(Failure(Timeout), tr)
    else
      var m := poll(tr);
      match m.result
      case Failure(e) => Run(Failure(e), m.trace)
      case Success(v) =>
        if v == target then Run(Success(()), m.trace)
        else
          var r := Await(poll, f, m.trace, target, fuel - 1);
          ReadsCons(tr, f, |r.trace| - |m.trace|);
          r
  }

  /**
   * The wait stops at the first poll showing the target: when the `k`
   * polls from `tr` missed and the next shows `target`, a wait with more
   * than `k` polls to spare succeeds after exactly `k + 1` polls.
   */
  lemma {:induction false} AwaitStopsAtFirstHit<T>(poll: Trace -> Run<T>, f: Frame, tr: Trace, target: T, fuel: nat, k: nat)
    requires Issues(poll, f) && k < fuel
    requires MissesFrom(poll, f, tr, target, k) && PollAt(poll, f, tr, k) == Success(target)
    ensures Await(poll, f, tr, target, fuel) == Run(Success(()), tr + Reads(f, k + 1))
    decreases k
  {
    ReadsCons(tr, f, k);
    if k > 0 {
      AwaitStopsAtFirstHit(poll, f, tr + [f], target, fuel - 1, k - 1);
    }
  }

  /** The last frame of `t` is a poll, and the poll returned `target`. */
  ghost predicate LastPollShows<T>(poll: Trace -> Run<T>, f: Frame, t: Trace, target: T) {
    |t| > 0 && t[|t| - 1] == f && poll(t[..|t| - 1]).result == Success(target)
  }

  /** A wait that succeeds ends with a poll that returned the target. */
  lemma AwaitEndsOnTarget<T>(poll: Trace -> Run<T>, f: Frame, tr: Trace, target: T, fuel: nat)
    requires Issues(poll, f)
    ensures var r := Await(poll, f, tr, target, fuel);
      r.result.Success? ==> |r.trace| > |tr| && LastPollShows(poll, f, r.trace, target)
  {
    var r := Await(poll, f, tr, target, fuel);
    if r.result.Success? {
      var k := |r.trace| - |tr| - 1;
      assert PollAt(poll, f, tr, k) == Success(target);
      ReadsLast(tr, f, k);
      PollAtIsPoll(poll, f, tr, k);
    }
  }

  /** After `k + 1` reads the last frame is the read and the ones before it are `k` reads. */
  lemma ReadsLast(tr: Trace, f: Frame, k: nat)
    ensures var t := tr + Reads(f, k + 1);
      |t| > 0 && t[|t| - 1] == f && t[..|t| - 1] == tr + Reads(f, k)
  {
    ReadsSnoc(f, k);
    assert tr + Reads(f, k + 1) == (tr + Reads(f, k)) + [f];
  }

  /** A wait fails only with its own `Timeout` or an error one of its polls reported. */
  lemma {:induction false} AwaitErrorFromPoll<T>(poll: Trace -> Run<T>, f: Frame, tr: Trace, target: T, fuel: nat, e: Error)
    requires Issues(poll, f) && e != Timeout
    requires forall t :: poll(t).result != Failure(e)
    ensures Await(poll, f, tr, target, fuel).result != Failure(e)
    decreases fuel
  {
    if fuel > 0 && poll(tr).result.Success? && poll(tr).result.value != target {
      AwaitErrorFromPoll(poll, f, poll(tr).trace, target, fuel - 1, e);
    }
  }

  /** A wait whose poll frame is no strobe issues no strobe. */
  lemma AwaitIssuesNoStrobe<T>(poll: Trace -> Run<T>, f: Frame, tr: Trace, target: T, fuel: nat)
    requires Issues(poll, f) && StrobeOf(f) == []
    ensures Strobes(Await(poll, f, tr, target, fuel).trace) == Strobes(tr)
  {
    var w := Await(poll, f, tr, target, fuel);
    PollsIssueNoStrobe(tr, f, w.trace);
  }

  // ---------------------------------------------------------------------
  // The RXBYTES debounce
  // ---------------------------------------------------------------------

  /**
   * Each of the `n` polls from `tr`, with `last` the count before them,
   * returned a count, and none returned a count above zero equal to the
   * count before it.
   */
  ghost predicate KeepsPolling(poll: Trace -> Run<Byte>, f: Frame, tr: Trace, last: Byte, n: nat)
    decreases n
  {
    n == 0
    || (PollAt(poll, f, tr, 0).Success?
        && !(PollAt(poll, f, tr, 0).value > 0 && PollAt(poll, f, tr, 0).value == last)
        && KeepsPolling(poll, f, tr + [f], PollAt(poll, f, tr, 0).value, n - 1))
  }

  /**
   * The debounce of `rx_bytes_available`, with `last` the count polled
   * before: poll until a count above zero equals the one before it, and
   * return it.  Every earlier poll kept it going; an error is passed on.
   */
  function Debounce(poll: Trace -> Run<Byte>, f: Frame, tr: Trace, last: Byte, fuel: nat): (r: Run<Byte>)
    requires Issues(poll, f)
    ensures |tr| <= |r.trace| <= |tr| + fuel
    ensures r.trace == tr + Reads(f, |r.trace| - |tr|)
    ensures r.result == Failure(Timeout) ==> |r.trace| == |tr| + fuel && KeepsPolling(poll, f, tr, last, fuel)
    ensures r.result != Failure(Timeout) ==>
      var k := |r.trace| - |tr| - 1;
      k >= 0 && KeepsPolling(poll, f, tr, last, k)
      && (r.result.Failure? ==> PollAt(poll, f, tr, k) == Failure(r.result.error))
    ensures r.result.Success? ==>
      var k := |r.trace| - |tr| - 1;
      var n := r.result.value;
      k >= 0 && n > 0 && PollAt(poll, f, tr, k) == Success(n)
      && (if k == 0 then last == n else PollAt(poll, f, tr, k - 1) == Success(n))
    decreases fuel
  {
    if fuel == 0 then Run(Failure(Timeout), tr)
    else
      var g := poll(tr);
      match g.result
      case Failure(e) => Run(Failure(e), g.trace)
      case Success(n) =>
        if n > 0 && n == last then Run(Success(last), g.trace)
        else
          var r := Debounce(poll, f, g.trace, n, fuel - 1);
          ReadsCons(tr, f, |r.trace| - |g.trace|);
          r
  }

  /**
   * The polls from `tr` that left `t` ended with two polls in a row that
   * both returned the count `n`, which is above zero.
   */
  ghost predicate ShownTwice(poll: Trace -> Run<Byte>, f: Frame, tr: Trace, t: Trace, n: Byte) {
    var k := |t| - |tr| - 1;
    k >= 1 && n > 0 && PollAt(poll, f, tr, k) == Success(n) && PollAt(poll, f, tr, k - 1) == Success(n)
  }

  /**
   * Started with no count before it (`last` 0), the debounce returns a
   * count only after two polls in a row showed it.
   */
  lemma DebounceFromZero(poll: Trace -> Run<Byte>, f: Frame, tr: Trace, fuel: nat)
    requires Issues(poll, f)
    ensures var r := Debounce(poll, f, tr, 0, fuel);
      r.result.Success? ==> ShownTwice(poll, f, tr, r.trace, r.result.value)
  {
    var r := Debounce(poll, f, tr, 0, fuel);
    if r.result.Success? {
      var k := |r.trace| - |tr| - 1;
      var n := r.result.value;
      assert k >= 0 && n > 0;
      assert if k == 0 then 0 == n else PollAt(poll, f, tr, k - 1) == Success(n);
    }
  }

  /**
   * The debounce stops at the first count above zero that repeats: when
   * the `k` polls from `tr` kept it going and the next repeats the count
   * before it, a debounce with more than `k` polls to spare returns that
   * count after exactly `k + 1` polls.
   */
  lemma {:induction false} DebounceStopsAtFirstRepeat(poll: Trace -> Run<Byte>, f: Frame, tr: Trace, last: Byte, fuel: nat, k: nat, n: Byte)
    requires Issues(poll, f) && k < fuel
    requires KeepsPolling(poll, f, tr, last, k) && PollAt(poll, f, tr, k) == Success(n) && n > 0
    requires if k == 0 then last == n else PollAt(poll, f, tr, k - 1) == Success(n)
    ensures Debounce(poll, f, tr, last, fuel) == Run(Success(n), tr + Reads(f, k + 1))
    decreases k
  {
    ReadsCons(tr, f, k);
    if k > 0 {
      DebounceStopsAtFirstRepeat(poll, f, tr + [f], PollAt(poll, f, tr, 0).value, fuel - 1, k - 1, n);
    }
  }

  /** A debounce whose poll frame is no strobe issues no strobe. */
  lemma DebounceIssuesNoStrobe(poll: Trace -> Run<Byte>, f: Frame, tr: Trace, last: Byte, fuel: nat)
    requires Issues(poll, f) && StrobeOf(f) == []
    ensures Strobes(Debounce(poll, f, tr, last, fuel).trace) == Strobes(tr)
  {
    var d := Debounce(poll, f, tr, last, fuel);
    PollsIssueNoStrobe(tr, f, d.trace);
  }
}
