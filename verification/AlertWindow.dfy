/** The sliding-window alert latch, over whole runs of a monotone clock. */
module AlertWindow {
  import opened Wrappers

  /** A recorded event: when, and whether it counts as a hit. */
  type Event = (real, bool)

  datatype Latch = Latch(events: seq<Event>, firedAt: Option<real>)

  function DropOld(events: seq<Event>, cutoff: real): seq<Event> {
    if events != [] && events[0].0 < cutoff then DropOld(events[1..], cutoff) else events
  }

  function Recorded(l: Latch, window: real, now: real, hit: bool): Latch {
    l.(events := DropOld(l.events, now - window) + [(now, hit)])
  }

  predicate MayFire(l: Latch, cooldown: Option<real>, now: real) {
    l.firedAt.None? || (cooldown.Some? && now - l.firedAt.value >= cooldown.value)
  }

  function Hits(events: seq<Event>): nat {
    if events == [] then 0 else (if events[0].1 then 1 else 0) + Hits(events[1..])
  }

  class SlidingWindow {
    const window: real
    const cooldown: Option<real>
    var events: seq<Event>
    var firedAt: Option<real>

    constructor (window: real, cooldown: Option<real>)
      ensures this.window == window && this.cooldown == cooldown && View() == Latch([], None)
    {
      this.window, this.cooldown, events, firedAt := window, cooldown, [], None;
    }

    function View(): Latch
      reads this
    {
      Latch(events, firedAt)
    }

    method Record(now: real, hit: bool)
      modifies this`events
      ensures View() == Recorded(old(View()), window, now, hit)
    {
      while events != [] && events[0].0 < now - window
        invariant DropOld(events, now - window) == DropOld(old(events), now - window)
        decreases |events|
      {
        events := events[1..];
      }
      events := events + [(now, hit)];
    }

    method Rearm()
      modifies this`firedAt
      ensures View() == old(View()).(firedAt := None)
    {
      firedAt := None;
    }

    method Fire(now: real) returns (fired: bool)
      modifies this`firedAt
      ensures fired == MayFire(old(View()), cooldown, now)
      ensures View() == if fired then old(View()).(firedAt := Some(now)) else old(View())
    {
      if firedAt.Some? && (cooldown.None? || now - firedAt.value < cooldown.value) {
        return false;
      }
      firedAt := Some(now);
      return true;
    }
  }

  // Whole runs.

  datatype Op = Record(now: real, hit: bool) | Rearm | Fire(now: real)

  function Play(ops: seq<Op>, window: real, cooldown: Option<real>): Latch {
    if ops == [] then Latch([], None)
    else
      var l := Play(ops[..|ops| - 1], window, cooldown);
      match ops[|ops| - 1]
      case Record(now, hit) => Recorded(l, window, now, hit)
      case Rearm => l.(firedAt := None)
      case Fire(now) => if MayFire(l, cooldown, now) then l.(firedAt := Some(now)) else l
  }

  predicate Clocked(ops: seq<Op>) {
    forall i, j :: 0 <= i < j < |ops| && !ops[i].Rearm? && !ops[j].Rearm? ==> ops[i].now <= ops[j].now
  }

  /** Everything ever recorded. */
  function Log(ops: seq<Op>): seq<Event> {
    if ops == [] then []
    else Log(ops[..|ops| - 1])
         + if ops[|ops| - 1].Record? then [(ops[|ops| - 1].now, ops[|ops| - 1].hit)] else []
  }

  /** The events of a log no older than `cutoff`, wherever they stand. */
  function Since(log: seq<Event>, cutoff: real): seq<Event> {
    if log == [] then [] else Since(log[..|log| - 1], cutoff) + if log[|log| - 1].0 >= cutoff then [log[|log| - 1]] else []
  }

  predicate Sorted(log: seq<Event>) {
    forall i, j :: 0 <= i < j < |log| ==> log[i].0 <= log[j].0
  }

  lemma {:induction false} DropOldAppend(a: seq<Event>, e: Event, cutoff: real)
    ensures DropOld(a + [e], cutoff) == if DropOld(a, cutoff) == [] then DropOld([e], cutoff) else DropOld(a, cutoff) + [e]
  {
    if a == [] {
      assert a + [e] == [e];
    } else if a[0].0 < cutoff {
      assert (a + [e])[1..] == a[1..] + [e];
      DropOldAppend(a[1..], e, cutoff);
    }
  }

  lemma {:induction false} DropOldIsSince(log: seq<Event>, before: real, cutoff: real)
    requires Sorted(log) && before <= cutoff
    ensures DropOld(Since(log, before), cutoff) == Since(log, cutoff)
    ensures Since(log, cutoff) != [] ==> log[|log| - 1].0 >= cutoff
  {
    if log != [] {
      var init, e := log[..|log| - 1], log[|log| - 1];
      DropOldIsSince(init, before, cutoff);
      if before < cutoff { DropOldIsSince(init, before, before); }
      assert init != [] ==> init[|init| - 1] == log[|log| - 2];
      if e.0 >= before { DropOldAppend(Since(init, before), e, cutoff); }
    }
  }

  lemma {:induction false} LogIsSorted(ops: seq<Op>)
    requires Clocked(ops)
    ensures Sorted(Log(ops))
  {
    if ops != [] {
      LogIsSorted(ops[..|ops| - 1]);
      LogTimes(ops[..|ops| - 1]);
    }
  }

  lemma {:induction false} LogTimes(ops: seq<Op>)
    ensures forall e :: e in Log(ops) ==> exists i :: 0 <= i < |ops| && ops[i].Record? && ops[i].now == e.0
  {
    if ops != [] { LogTimes(ops[..|ops| - 1]); }
  }

  /** The deque after recording `log`, popping from the left before each append. */
  function Deque(log: seq<Event>, window: real): seq<Event> {
    if log == [] then []
    else DropOld(Deque(log[..|log| - 1], window), log[|log| - 1].0 - window) + [log[|log| - 1]]
  }

  lemma {:induction false} DequeIsSince(log: seq<Event>, window: real)
    requires Sorted(log) && window >= 0.0 && log != []
    ensures Deque(log, window) == Since(log, log[|log| - 1].0 - window)
  {
    var init, now := log[..|log| - 1], log[|log| - 1].0;
    if init != [] {
      DequeIsSince(init, window);
      assert init[|init| - 1] == log[|log| - 2];
      DropOldIsSince(init, init[|init| - 1].0 - window, now - window);
    }
  }

  /** The part of a log that counts at its last record. */
  function InWindow(log: seq<Event>, window: real): seq<Event> {
    if log == [] then [] else Since(log, log[|log| - 1].0 - window)
  }

  lemma DequeIsWindow(log: seq<Event>, window: real)
    requires Sorted(log) && window >= 0.0
    ensures Deque(log, window) == InWindow(log, window)
  {
    if log != [] { DequeIsSince(log, window); }
  }

  lemma {:induction false} PlayKeepsDeque(ops: seq<Op>, window: real, cooldown: Option<real>)
    ensures Play(ops, window, cooldown).events == Deque(Log(ops), window)
  {
    if ops != [] {
      var init := ops[..|ops| - 1];
      PlayKeepsDeque(init, window, cooldown);
      if ops[|ops| - 1].Record? {
        assert Log(ops)[..|Log(init)|] == Log(init);
      } else {
        assert Log(ops) == Log(init);
      }
    }
  }

  /** The deque holds exactly the events no older than `window` at the last record: so `total`
      and `hits` count those, and nothing else, after any run. */
  lemma WindowIsExact(ops: seq<Op>, window: real, cooldown: Option<real>)
    requires Clocked(ops) && window >= 0.0
    ensures Play(ops, window, cooldown).events == InWindow(Log(ops), window)
  {
    LogIsSorted(ops);
    PlayKeepsDeque(ops, window, cooldown);
    DequeIsWindow(Log(ops), window);
  }

  /** Op `n` is a fire() that said yes. */
  predicate Fired(ops: seq<Op>, window: real, cooldown: Option<real>, n: nat) {
    n < |ops| && ops[n].Fire? && MayFire(Play(ops[..n], window, cooldown), cooldown, ops[n].now)
  }

  predicate NoRearm(ops: seq<Op>, i: nat, j: nat) {
    j <= |ops| && forall k :: i <= k < j ==> !ops[k].Rearm?
  }

  /** The latch remembers the last fire since the last rearm. */
  lemma {:induction false} LatchIsLastFire(ops: seq<Op>, window: real, cooldown: Option<real>, n: nat)
    requires n <= |ops|
    ensures var l := Play(ops[..n], window, cooldown);
            if l.firedAt.None? then forall i: nat :: i < n && NoRearm(ops, i, n) ==> !Fired(ops, window, cooldown, i)
            else exists i: nat :: i < n && Fired(ops, window, cooldown, i) && NoRearm(ops, i, n) && ops[i].now == l.firedAt.value
                                  && forall k: nat :: i < k < n ==> !Fired(ops, window, cooldown, k)
  {
    if n > 0 {
      LatchIsLastFire(ops, window, cooldown, n - 1);
      assert ops[..n][..n - 1] == ops[..n - 1];
      var before, l := Play(ops[..n - 1], window, cooldown), Play(ops[..n], window, cooldown);
      if Fired(ops, window, cooldown, n - 1) {
        assert NoRearm(ops, n - 1, n);
      } else if l.firedAt.Some? {
        var i: nat :| i < n - 1 && Fired(ops, window, cooldown, i) && NoRearm(ops, i, n - 1) && ops[i].now == before.firedAt.value
                      && forall k: nat :: i < k < n - 1 ==> !Fired(ops, window, cooldown, k);
        assert NoRearm(ops, i, n);
      } else {
        forall i: nat | i < n && NoRearm(ops, i, n) ensures !Fired(ops, window, cooldown, i) {
          if i < n - 1 { assert NoRearm(ops, i, n - 1) && !ops[n - 1].Rearm?; }
        }
      }
    }
  }

  /** fire() says yes exactly when every earlier yes since the last rearm is at least `cooldown`
      old; without a cooldown, exactly when there was none. */
  lemma FireIsExact(ops: seq<Op>, window: real, cooldown: Option<real>, n: nat)
    requires Clocked(ops) && n < |ops| && ops[n].Fire?
    ensures Fired(ops, window, cooldown, n) <==>
            forall i: nat :: i < n && Fired(ops, window, cooldown, i) && NoRearm(ops, i, n) ==>
              cooldown.Some? && ops[n].now - ops[i].now >= cooldown.value
  {
    LatchIsLastFire(ops, window, cooldown, n);
    var l := Play(ops[..n], window, cooldown);
    if l.firedAt.Some? {
      var last: nat :| last < n && Fired(ops, window, cooldown, last) && NoRearm(ops, last, n) && ops[last].now == l.firedAt.value
                       && forall k: nat :: last < k < n ==> !Fired(ops, window, cooldown, k);
      forall i: nat | i < n && Fired(ops, window, cooldown, i) ensures ops[i].now <= ops[last].now {
        assert i <= last;
      }
    }
  }

  // The failure-rate alert.

  /** FAILURE_RATE_MIN_MSGS, FAILURE_RATE_THRESHOLD and FAILURE_RATE_WINDOW. */
  datatype AlertConfig = AlertConfig(minimum: nat, threshold: real, window: real)

  predicate Alarming(c: AlertConfig, l: Latch) {
    |l.events| >= c.minimum && |l.events| > 0 && Hits(l.events) as real / |l.events| as real >= c.threshold
  }

  /** Enough messages and not one failure: the incident is over. */
  predicate Clean(c: AlertConfig, l: Latch) {
    |l.events| >= c.minimum && Hits(l.events) == 0
  }

  /** _track_delivery. */
  method TrackDelivery(w: SlidingWindow, c: AlertConfig, now: real, failed: bool) returns (alert: bool)
    requires w.window == c.window && w.cooldown.None?
    modifies w
    ensures w.View() == Track(c, old(w.View()), now, failed)
    ensures alert == Alerts(c, old(w.View()), now, failed)
  {
    w.Record(now, failed);
    var total := |w.events|;
    if total < c.minimum { return false; }
    var failures := Hits(w.events);
    alert := false;
    if failures as real / total as real >= c.threshold {
      alert := w.Fire(now);
    }
    if failures == 0 { w.Rearm(); }
  }

  predicate Alerts(c: AlertConfig, l: Latch, now: real, failed: bool) {
    var l' := Recorded(l, c.window, now, failed);
    Alarming(c, l') && l'.firedAt.None?
  }

  function Track(c: AlertConfig, l: Latch, now: real, failed: bool): Latch {
    var l' := Recorded(l, c.window, now, failed);
    if Clean(c, l') then l'.(firedAt := None) else if Alerts(c, l, now, failed) then l'.(firedAt := Some(now)) else l'
  }

  /** The latch after a sequence of deliveries (time, failed). */
  function Tracked(c: AlertConfig, deliveries: seq<Event>): Latch {
    if deliveries == [] then Latch([], None)
    else Track(c, Tracked(c, deliveries[..|deliveries| - 1]), deliveries[|deliveries| - 1].0, deliveries[|deliveries| - 1].1)
  }

  predicate AlertsAt(c: AlertConfig, deliveries: seq<Event>, n: nat) {
    n < |deliveries| && Alerts(c, Tracked(c, deliveries[..n]), deliveries[n].0, deliveries[n].1)
  }

  predicate CleanAt(c: AlertConfig, deliveries: seq<Event>, n: nat) {
    n < |deliveries| && Clean(c, Tracked(c, deliveries[..n + 1]))
  }

  lemma {:induction false} LatchedUntilClean(c: AlertConfig, deliveries: seq<Event>, i: nat, n: nat)
    requires i < n <= |deliveries| && AlertsAt(c, deliveries, i)
    requires forall k :: i <= k < n ==> !CleanAt(c, deliveries, k)
    ensures Tracked(c, deliveries[..n]).firedAt.Some?
  {
    assert deliveries[..n][..n - 1] == deliveries[..n - 1];
    assert deliveries[..n - 1 + 1] == deliveries[..n];
    assert !CleanAt(c, deliveries, n - 1);
    if n > i + 1 { LatchedUntilClean(c, deliveries, i, n - 1); }
  }

  /** Between two failure-rate alerts the window was once clean: at least FAILURE_RATE_MIN_MSGS
      deliveries and no failure.  With a positive threshold that moment is strictly after the
      first alert. */
  lemma AlertsAreSeparated(c: AlertConfig, deliveries: seq<Event>, i: nat, j: nat) returns (k: nat)
    requires i < j && AlertsAt(c, deliveries, i) && AlertsAt(c, deliveries, j)
    ensures i <= k < j && CleanAt(c, deliveries, k)
    ensures c.threshold > 0.0 ==> i < k
  {
    if forall n :: i <= n < j ==> !CleanAt(c, deliveries, n) { LatchedUntilClean(c, deliveries, i, j); }
    k :| i <= k < j && CleanAt(c, deliveries, k);
    if c.threshold > 0.0 { AlertIsNotClean(c, deliveries, i); }
  }

  lemma AlertIsNotClean(c: AlertConfig, deliveries: seq<Event>, i: nat)
    requires AlertsAt(c, deliveries, i) && c.threshold > 0.0
    ensures !CleanAt(c, deliveries, i)
  {
    assert deliveries[..i + 1][..i] == deliveries[..i];
  }

  // When the alert goes off.

  /** The deliveries up to number `n` that are no older than the window then ... */
  function Recent(c: AlertConfig, deliveries: seq<Event>, n: nat): set<nat>
    requires n < |deliveries|
  {
    set i: nat | i <= n && deliveries[i].0 >= deliveries[n].0 - c.window
  }

  /** ... and the failed ones of them. */
  function FailedRecently(c: AlertConfig, deliveries: seq<Event>, n: nat): set<nat>
    requires n < |deliveries|
  {
    set i | i in Recent(c, deliveries, n) && deliveries[i].1
  }

  function Young(log: seq<Event>, cutoff: real): set<nat> {
    set i: nat | i < |log| && log[i].0 >= cutoff
  }

  function YoungHits(log: seq<Event>, cutoff: real): set<nat> {
    set i: nat | i < |log| && log[i].0 >= cutoff && log[i].1
  }

  lemma {:induction false} HitsAppend(a: seq<Event>, e: Event)
    ensures Hits(a + [e]) == Hits(a) + if e.1 then 1 else 0
  {
    if a == [] {
      assert [] + [e] == [e] && [e][1..] == [];
    } else {
      assert (a + [e])[1..] == a[1..] + [e];
      HitsAppend(a[1..], e);
    }
  }

  lemma YoungStep(log: seq<Event>, cutoff: real)
    requires log != []
    ensures var init, e, last := log[..|log| - 1], log[|log| - 1], |log| - 1;
            && Young(log, cutoff) == Young(init, cutoff) + (if e.0 >= cutoff then {last} else {}) && last !in Young(init, cutoff)
            && YoungHits(log, cutoff) == YoungHits(init, cutoff) + (if e.0 >= cutoff && e.1 then {last} else {})
            && last !in YoungHits(init, cutoff)
  {
  }

  lemma {:induction false} SinceCounts(log: seq<Event>, cutoff: real)
    ensures |Since(log, cutoff)| == |Young(log, cutoff)| && Hits(Since(log, cutoff)) == |YoungHits(log, cutoff)|
  {
    if log != [] {
      var before, e := Since(log[..|log| - 1], cutoff), log[|log| - 1];
      SinceCounts(log[..|log| - 1], cutoff);
      HitsAppend(before, e);
      YoungStep(log, cutoff);
      assert Since(log, cutoff) == if e.0 >= cutoff then before + [e] else before;
    }
  }

  lemma {:induction false} TrackedKeepsDeque(c: AlertConfig, deliveries: seq<Event>)
    ensures Tracked(c, deliveries).events == Deque(deliveries, c.window)
  {
    if deliveries != [] { TrackedKeepsDeque(c, deliveries[..|deliveries| - 1]); }
  }

  /** The window at delivery `n` counts the recent deliveries and the failed ones of them. */
  lemma WindowCounts(c: AlertConfig, deliveries: seq<Event>, n: nat)
    requires Sorted(deliveries) && c.window >= 0.0 && n < |deliveries|
    ensures var events := Recorded(Tracked(c, deliveries[..n]), c.window, deliveries[n].0, deliveries[n].1).events;
            && events == Tracked(c, deliveries[..n + 1]).events
            && |events| == |Recent(c, deliveries, n)| && Hits(events) == |FailedRecently(c, deliveries, n)|
  {
    var log, cutoff := deliveries[..n + 1], deliveries[n].0 - c.window;
    assert log[..n] == deliveries[..n] && log[n] == deliveries[n];
    TrackedKeepsDeque(c, log);
    DequeIsWindow(log, c.window);
    SinceCounts(log, cutoff);
    assert Young(log, cutoff) == Recent(c, deliveries, n);
    assert YoungHits(log, cutoff) == FailedRecently(c, deliveries, n);
  }

  /** Too many of the recent deliveries failed. */
  predicate RateReached(c: AlertConfig, deliveries: seq<Event>, n: nat) {
    n < |deliveries| && |Recent(c, deliveries, n)| >= c.minimum && |Recent(c, deliveries, n)| > 0
    && |FailedRecently(c, deliveries, n)| as real / |Recent(c, deliveries, n)| as real >= c.threshold
  }

  /** Enough recent deliveries, and none failed. */
  predicate Recovered(c: AlertConfig, deliveries: seq<Event>, n: nat) {
    n < |deliveries| && |Recent(c, deliveries, n)| >= c.minimum && FailedRecently(c, deliveries, n) == {}
  }

  lemma CleanIff(c: AlertConfig, deliveries: seq<Event>, n: nat)
    requires Sorted(deliveries) && c.window >= 0.0 && n < |deliveries|
    ensures CleanAt(c, deliveries, n) <==> Recovered(c, deliveries, n)
  {
    WindowCounts(c, deliveries, n);
  }

  /** An alert before `n`, and no recovery since. */
  ghost predicate StillLatched(c: AlertConfig, deliveries: seq<Event>, n: nat, i: nat) {
    i < n && AlertsAt(c, deliveries, i) && forall k :: i <= k < n ==> !CleanAt(c, deliveries, k)
  }

  lemma LatchStep(c: AlertConfig, deliveries: seq<Event>, n: nat)
    requires n < |deliveries|
    ensures Tracked(c, deliveries[..n + 1]).firedAt.Some? <==>
            !CleanAt(c, deliveries, n) && (AlertsAt(c, deliveries, n) || Tracked(c, deliveries[..n]).firedAt.Some?)
  {
    assert deliveries[..n + 1][..n] == deliveries[..n];
  }

  lemma {:induction false} LatchedIff(c: AlertConfig, deliveries: seq<Event>, n: nat)
    requires n <= |deliveries|
    ensures Tracked(c, deliveries[..n]).firedAt.Some? <==> exists i: nat :: StillLatched(c, deliveries, n, i)
  {
    if n > 0 {
      LatchedIff(c, deliveries, n - 1);
      LatchStep(c, deliveries, n - 1);
      forall i: nat
        ensures StillLatched(c, deliveries, n, i) <==>
                !CleanAt(c, deliveries, n - 1) && (StillLatched(c, deliveries, n - 1, i) || (i == n - 1 && AlertsAt(c, deliveries, i)))
      {
        LatchedOn(c, deliveries, n - 1, i);
      }
    }
  }

  lemma LatchedOn(c: AlertConfig, deliveries: seq<Event>, n: nat, i: nat)
    ensures StillLatched(c, deliveries, n + 1, i) <==>
            !CleanAt(c, deliveries, n) && (StillLatched(c, deliveries, n, i) || (i == n && AlertsAt(c, deliveries, i)))
  {
  }

  /** The failure-rate alert goes off at a delivery exactly when the recent deliveries are enough, the
      share of failed ones among them has reached the threshold, and no alert stands: since each earlier
      one there was a delivery at which enough were recent and none had failed. */
  lemma AlertIff(c: AlertConfig, deliveries: seq<Event>, n: nat)
    requires Sorted(deliveries) && c.window >= 0.0 && n < |deliveries|
    ensures AlertsAt(c, deliveries, n) <==>
            && RateReached(c, deliveries, n)
            && forall i: nat :: i < n && AlertsAt(c, deliveries, i) ==> exists k: nat :: i <= k < n && Recovered(c, deliveries, k)
  {
    WindowCounts(c, deliveries, n);
    LatchedIff(c, deliveries, n);
    forall k: nat | k < n ensures CleanAt(c, deliveries, k) <==> Recovered(c, deliveries, k) { CleanIff(c, deliveries, k); }
    if i: nat :| StillLatched(c, deliveries, n, i) {
      assert forall k: nat :: i <= k < n ==> !Recovered(c, deliveries, k);
    } else {
      forall i: nat | i < n && AlertsAt(c, deliveries, i) ensures exists k: nat :: i <= k < n && Recovered(c, deliveries, k) {
        assert !StillLatched(c, deliveries, n, i);
      }
    }
  }
}
