/**
 * `RGRPC::Promise`: a one-field result cell whose reader polls until the value
 * is truthy or a timeout has elapsed. Time is an integer clock: `start` is the
 * reading taken on entry and `clock` the readings taken by successive polls
 * (the caller's observation horizon); threads are not modelled, so nothing
 * sets the cell while a reader polls.
 */
module Futures {
  import opened Wrappers

  /** A Ruby value as far as truthiness goes: `nil`, `false`, or any other object. */
  datatype Val<T> = Nil | False | Obj(obj: T)
  {
    predicate Truthy()
    {
      Obj?
    }
  }

  /**
   * What `value(timeout)` returns when it polls at the instants `clock`: the
   * loop ends at the first poll where a timeout is given and more than
   * `timeout` ticks have passed since `start`, or the stored value is truthy,
   * and then returns the stored value. `None`: still polling when the
   * readings run out.
   */
  function Poll<T>(v: Val<T>, timeout: Option<int>, start: int, clock: seq<int>): (r: Option<Val<T>>)
    ensures r.Some? ==> r.value == v
    ensures r.None? ==>
      forall i :: 0 <= i < |clock| ==> !v.Truthy() && (timeout.None? || clock[i] - start <= timeout.value)
    decreases clock
  {
    if clock == [] then None
    else if timeout.Some? && clock[0] - start > timeout.value then Some(v)
    else if v.Truthy() then Some(v)
    else
      assert forall i :: 1 <= i < |clock| ==> clock[i] == clock[1..][i - 1];
      Poll(v, timeout, start, clock[1..])
  }

  class Promise<T(==)> {
    var val: Val<T>

    /** `Promise.new`: the cell holds `nil`. */
    constructor ()
      ensures val == Nil
    {
      val := Nil;
    }

    /** `set(v)`: stores `v` whatever the cell held before. */
    method Set(v: Val<T>)
      modifies this
      ensures val == v
    {
      val := v;
    }

    /** `value(timeout)`: polls at the instants of `clock` and never changes the cell. */
    method Value(timeout: Option<int>, start: int, clock: seq<int>) returns (r: Option<Val<T>>)
      ensures r == Poll(val, timeout, start, clock)
      ensures r.Some? ==> r.value == val
    {
      var i := 0;
      while i < |clock|
        invariant 0 <= i <= |clock|
        invariant Poll(val, timeout, start, clock) == Poll(val, timeout, start, clock[i..])
      {
        assert clock[i..][1..] == clock[i + 1..];
        if timeout.Some? && clock[i] - start > timeout.value {
          return Some(val);
        }
        if val.Truthy() {
          return Some(val);
        }
        i := i + 1;
      }
      return None;
    }
  }

  /** A truthy value is returned at the first poll. */
  lemma PollTruthy<T>(v: Val<T>, timeout: Option<int>, start: int, clock: seq<int>)
    requires v.Truthy() && clock != []
    ensures Poll(v, timeout, start, clock) == Some(v)
  {
  }

  /** With a timeout and a falsy value, the reader returns that value (nil if nothing was set)
      exactly when some poll sees more than `timeout` ticks elapsed. */
  lemma {:induction false} PollTimesOut<T>(v: Val<T>, t: int, start: int, clock: seq<int>)
    requires !v.Truthy()
    ensures Poll(v, Some(t), start, clock) == Some(v) <==> exists i :: 0 <= i < |clock| && clock[i] - start > t
    ensures Poll(v, Some(t), start, clock) == None <==> forall i :: 0 <= i < |clock| ==> clock[i] - start <= t
    decreases clock
  {
    if clock != [] {
      PollTimesOut(v, t, start, clock[1..]);
      if clock[0] - start <= t {
        assert forall i :: 1 <= i < |clock| ==> clock[i] == clock[1..][i - 1];
        assert (exists i :: 0 <= i < |clock| && clock[i] - start > t) ==
               (exists i :: 0 <= i < |clock[1..]| && clock[1..][i] - start > t);
      }
    }
  }

  /** Without a timeout only truthiness releases a reader: after `set(false)` or with
      nothing set, it is still polling however many readings it takes. */
  lemma {:induction false} PollBlocksWhileFalsy<T>(v: Val<T>, start: int, clock: seq<int>)
    requires !v.Truthy()
    ensures Poll(v, None, start, clock) == None
    decreases clock
  {
    if clock != [] {
      PollBlocksWhileFalsy(v, start, clock[1..]);
    }
  }

  /** A fresh promise read with a timeout that has elapsed yields nil. */
  method FreshPromiseTimesOut(t: int, start: int, now: int) returns (r: Option<Val<int>>)
    requires now - start > t
    ensures r == Some(Nil)
  {
    var p := new Promise<int>();
    r := p.Value(Some(t), start, [now]);
  }

  /** `set` does not enforce single assignment: the later of two sets is what a reader sees. */
  method SetTwiceKeepsLast<T(==)>(a: T, b: T, start: int, now: int) returns (r: Option<Val<T>>)
    ensures r == Some(Obj(b))
  {
    var p := new Promise<T>();
    p.Set(Obj(a));
    p.Set(Obj(b));
    r := p.Value(None, start, [now]);
  }

  /** Two reads with no `set` between them, each with its own timeout, entry instant and
      readings, agree whenever both return: each returns the stored value. */
  method ReadsAgree<T(==)>(p: Promise<T>, timeout1: Option<int>, start1: int, clock1: seq<int>,
                           timeout2: Option<int>, start2: int, clock2: seq<int>)
    returns (r1: Option<Val<T>>, r2: Option<Val<T>>)
    ensures r1.Some? && r2.Some? ==> r1 == r2
    ensures r1 == None || r1 == Some(p.val)
    ensures r2 == None || r2 == Some(p.val)
  {
    r1 := p.Value(timeout1, start1, clock1);
    r2 := p.Value(timeout2, start2, clock2);
  }
}
