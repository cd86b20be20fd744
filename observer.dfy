/** Observer: callbacks registered per observed key, fired on notification
    unless the key was notified less than a cool-down time ago. Times are
    milliseconds on a monotonic clock; the time a notification happens is a
    parameter. */
module Observers {

  /** The callbacks of one key and when they were last fired. A new entry
      has no callbacks and the clock's epoch (0) as its last fire time. */
  datatype ObservedContext<C> = ObservedContext(callbacks: seq<C>, lastObserveTime: int)

  /** The cool-down check of notify: a notification is dropped while the
      previous one is less than coolDown milliseconds old. */
  predicate InCoolDown(lastObserveTime: int, coolDown: int, now: int)
  {
    lastObserveTime + coolDown > now
  }

  /** The times, among a run of notifications of one key, at which the
      callbacks fire, starting from a last fire time. */
  function FireTimes(last: int, coolDown: int, nows: seq<int>): seq<int>
    decreases |nows|
  {
    if nows == [] then []
    else if InCoolDown(last, coolDown, nows[0]) then FireTimes(last, coolDown, nows[1..])
    else [nows[0]] + FireTimes(nows[0], coolDown, nows[1..])
  }

  /** Every fire time is one of the notification times and is at least
      coolDown after the previous fire time. */
  lemma {:induction false} FireTimesRespectCoolDown(last: int, coolDown: int, nows: seq<int>)
    ensures forall i :: 0 <= i < |FireTimes(last, coolDown, nows)| ==> FireTimes(last, coolDown, nows)[i] in nows
    ensures |FireTimes(last, coolDown, nows)| > 0 ==> FireTimes(last, coolDown, nows)[0] >= last + coolDown
    ensures forall i :: 0 < i < |FireTimes(last, coolDown, nows)| ==>
              FireTimes(last, coolDown, nows)[i] >= FireTimes(last, coolDown, nows)[i - 1] + coolDown
    decreases |nows|
  {
    if nows != [] {
      FireTimesRespectCoolDown(last, coolDown, nows[1..]);
      if !InCoolDown(last, coolDown, nows[0]) {
        FireTimesRespectCoolDown(nows[0], coolDown, nows[1..]);
        var rest := FireTimes(nows[0], coolDown, nows[1..]);
        var all := FireTimes(last, coolDown, nows);
        assert all == [nows[0]] + rest;
        forall i | 0 < i < |all| ensures all[i] >= all[i - 1] + coolDown {
          assert all[i] == rest[i - 1];
        }
      }
    }
  }

  /** With a cool-down of zero and notification times that never go back,
      every notification fires. */
  lemma {:induction false} NoCoolDownFiresEveryTime(last: int, nows: seq<int>)
    requires forall i :: 0 <= i < |nows| ==> last <= nows[i]
    requires forall i, j :: 0 <= i < j < |nows| ==> nows[i] <= nows[j]
    ensures FireTimes(last, 0, nows) == nows
    decreases |nows|
  {
    if nows != [] {
      NoCoolDownFiresEveryTime(nows[0], nows[1..]);
      assert [nows[0]] + nows[1..] == nows;
    }
  }

  /** A notification fires at most once per cool-down window: two fire
      times within coolDown of each other cannot both occur (for a positive
      cool-down, fire times strictly increase). */
  lemma {:induction false} FireTimesSpread(last: int, coolDown: int, nows: seq<int>, i: nat, j: nat)
    requires coolDown >= 0
    requires i < j < |FireTimes(last, coolDown, nows)|
    ensures FireTimes(last, coolDown, nows)[j] >= FireTimes(last, coolDown, nows)[i] + coolDown
    decreases j - i
  {
    FireTimesRespectCoolDown(last, coolDown, nows);
    if j > i + 1 {
      FireTimesSpread(last, coolDown, nows, i, j - 1);
    }
  }

  class Observer<K(==), C> {
    /** observed_objects_ */
    var observed: map<K, ObservedContext<C>>
    /** cool_down_time_, in milliseconds */
    const coolDownTime: int

    /** Observer(): no cool-down. */
    constructor ()
      ensures observed == map[] && coolDownTime == 0
    {
      observed := map[];
      coolDownTime := 0;
    }

    constructor WithCoolDown(coolDown: int)
      ensures observed == map[] && coolDownTime == coolDown
    {
      observed := map[];
      coolDownTime := coolDown;
    }

    /** observe: appends the callback to the key's list, creating the entry
        (last fire time 0) when the key is new; other keys are untouched. */
    method Observe(key: K, callback: C)
      modifies this
      ensures key in old(observed) ==>
                observed == old(observed)[key := ObservedContext(old(observed)[key].callbacks + [callback],
                                                                 old(observed)[key].lastObserveTime)]
      ensures key !in old(observed) ==> observed == old(observed)[key := ObservedContext([callback], 0)]
    {
      var context := if key in observed then observed[key] else ObservedContext([], 0);
      assert [] + [callback] == [callback];
      observed := observed[key := context.(callbacks := context.callbacks + [callback])];
    }

    /** notify at time now: nothing happens for an unknown key or during the
        cool-down; otherwise the last fire time becomes now and every callback
        of the key is invoked once, in registration order. */
    method Notify(key: K, now: int) returns (triggered: bool, invoked: seq<C>)
      modifies this
      ensures triggered <==> key in old(observed) && !InCoolDown(old(observed)[key].lastObserveTime, coolDownTime, now)
      ensures !triggered ==> observed == old(observed) && invoked == []
      ensures triggered ==> observed == old(observed)[key := old(observed)[key].(lastObserveTime := now)]
      ensures triggered ==> invoked == old(observed)[key].callbacks
    {
      if key !in observed {
        return false, [];
      }
      var context := observed[key];
      if InCoolDown(context.lastObserveTime, coolDownTime, now) {
        return false, [];
      }
      observed := observed[key := context.(lastObserveTime := now)];
      var callbacks := context.callbacks;
      invoked := [];
      for i := 0 to |callbacks|
        invariant invoked == callbacks[..i]
      {
        invoked := invoked + [callbacks[i]];
      }
      return true, invoked;
    }
  }

  /** A run of notifications of one observed key, in time order, as seen by
      the observer: the callbacks fire exactly at FireTimes. */
  method NotifyAll<K(==), C>(observer: Observer<K, C>, key: K, nows: seq<int>) returns (fired: seq<int>)
    requires key in observer.observed
    modifies observer
    ensures fired == FireTimes(old(observer.observed[key].lastObserveTime), observer.coolDownTime, nows)
    ensures key in observer.observed && observer.observed[key].callbacks == old(observer.observed[key].callbacks)
  {
    ghost var start := observer.observed[key].lastObserveTime;
    fired := [];
    var i := 0;
    while i < |nows|
      invariant 0 <= i <= |nows|
      invariant key in observer.observed
      invariant observer.observed[key].callbacks == old(observer.observed[key].callbacks)
      invariant fired + FireTimes(observer.observed[key].lastObserveTime, observer.coolDownTime, nows[i..])
                == FireTimes(start, observer.coolDownTime, nows)
    {
      var triggered, _ := observer.Notify(key, nows[i]);
      assert nows[i..][1..] == nows[i + 1..];
      if triggered {
        fired := fired + [nows[i]];
      }
      i := i + 1;
    }
    assert nows[i..] == [];
  }
}
