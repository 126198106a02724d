/** The timer system: a queue of events ordered by time and then by number, alarms that set and cancel
    their one event, periodic timers built on them, and the loop run before each transaction. */
module Timers {
  import opened Wrappers

  datatype Event = Event(t: int, serial: nat, alarm: nat)

  /** `operator <` on events. */
  predicate Before(e: Event, f: Event) {
    e.t < f.t || (e.t == f.t && e.serial < f.serial)
  }

  // ---- the queue ----

  ghost predicate Apart(c: set<Event>) {
    forall e, f :: e in c && f in c && e.serial == f.serial ==> e == f
  }

  ghost predicate Least(c: set<Event>, l: Event) {
    l in c && forall f :: f in c && f != l ==> Before(l, f)
  }

  lemma {:induction false} LeastExists(c: set<Event>) returns (l: Event)
    requires c != {} && Apart(c)
    ensures Least(c, l)
    decreases c
  {
    var e :| e in c;
    if c == {e} {
      l := e;
    } else {
      var r := LeastExists(c - {e});
      l := if Before(e, r) then e else r;
      assert r in c && r.serial != e.serial;
      forall f | f in c && f != l
        ensures Before(l, f)
      {
        if f != e && f != r {
          assert f in c - {e} && Before(r, f);
        }
      }
    }
  }

  /** `pop_if`: the least event, if it passes. */
  method PopDue(c: set<Event>, now: int) returns (r: Option<Event>, rest: set<Event>)
    requires Apart(c)
    ensures r.None? <==> forall e :: e in c ==> e.t > now
    ensures r.None? ==> rest == c
    ensures r.Some? ==> r.value in c && r.value.t <= now && rest == c - {r.value}
    ensures r.Some? ==> forall f :: f in rest ==> Before(r.value, f)
    ensures r.Some? ==> forall f :: f in rest ==> r.value.t < f.t || (r.value.t == f.t && r.value.serial < f.serial)
  {
    if c == {} {
      return None, c;
    }
    ghost var l := LeastExists(c);
    assert l in c && forall f :: f in c && f != l ==> Before(l, f);
    var e :| e in c && forall f :: f in c && f != e ==> Before(e, f);
    if e.t <= now {
      return Some(e), c - {e};
    }
    assert forall f :: f in c ==> f == e || Before(e, f);
    return None, c;
  }

  // ---- work left in a tick ----

  ghost function Overdue(e: Event, now: int): nat {
    if e.t <= now then now - e.t + 1 else 0
  }

  /** How far the queued events lie behind the clock, in all. */
  ghost function Work(c: set<Event>, now: int): nat {
    if c == {} then 0
    else
      var e :| e in c;
      Overdue(e, now) + Work(c - {e}, now)
  }

  lemma {:induction false} WorkSplit(c: set<Event>, e: Event, now: int)
    requires e in c
    ensures Work(c, now) == Overdue(e, now) + Work(c - {e}, now)
    decreases c
  {
    var f :| f in c && Work(c, now) == Overdue(f, now) + Work(c - {f}, now);
    if f != e {
      WorkSplit(c - {f}, e, now);
      WorkSplit(c - {e}, f, now);
      assert c - {f} - {e} == c - {e} - {f};
    }
  }

  // ---- what holds of every history ----

  /** What `at` keeps for an alarm, and for the alarm of a periodic timer its period and the time it last
      fired or was started. An alarm that is disposed of no longer listens to its deadline. */
  datatype Alarm = Alarm(timer: bool, listening: bool, period: Option<int>, zero: int, current: Option<Event>)

  /** Since when a timer has had its present period: the time it counts from, and the place in the log. */
  datatype Epoch = Epoch(base: int, from: nat)

  predicate Runs(m: Alarm) {
    m.timer && m.listening && m.period.Some?
  }

  /** Queued events are numbered apart, and each is the current one of an alarm that listens; so an alarm
      has at most one. */
  ghost predicate QueueOk(c: set<Event>, alarms: seq<Alarm>, next: nat) {
    && (forall e :: e in c ==> e.alarm < |alarms| && alarms[e.alarm].current == Some(e))
    && (forall a :: 0 <= a < |alarms| && alarms[a].current.Some? ==>
          alarms[a].listening && alarms[a].current.value.alarm == a && alarms[a].current.value.serial <= next)
    && Apart(c)
  }

  /** An event that was cancelled or has fired is out of the queue for good, and none did both. */
  ghost predicate GoneOk(c: set<Event>, cancelled: set<Event>, log: seq<Event>, next: nat) {
    && (forall e :: e in cancelled ==> e.serial <= next && e !in c && e !in log)
    && (forall e :: e in log ==> e.serial <= next && e !in c)
  }

  /** Alarms have fired in (time, number) order, and nothing queued comes before a fired one. */
  ghost predicate OrderOk(c: set<Event>, log: seq<Event>) {
    && (forall i, j :: 0 <= i < j < |log| ==> Before(log[i], log[j]))
    && (forall e, f :: e in log && f in c ==> Before(e, f))
  }

  /** The times at which alarm `a` fired. */
  function FiredAt(log: seq<Event>, a: nat): seq<int> {
    if log == [] then []
    else FiredAt(log[..|log| - 1], a) + if log[|log| - 1].alarm == a then [log[|log| - 1].t] else []
  }

  lemma FiredAtAppend(log: seq<Event>, e: Event, a: nat)
    ensures FiredAt(log + [e], a) == FiredAt(log, a) + if e.alarm == a then [e.t] else []
  {
    assert (log + [e])[..|log|] == log;
  }

  /** The first `k` multiples of `period` after `base`. */
  function Multiples(base: int, period: int, k: nat): (ts: seq<int>)
    ensures |ts| == k && forall i :: 0 <= i < k ==> ts[i] == base + (i + 1) * period
  {
    if k == 0 then [] else Multiples(base, period, k - 1) + [base + k * period]
  }

  /** A running timer has fired at the first multiples of its period, and has the next one queued. */
  ghost predicate RunAt(c: set<Event>, m: Alarm, base: int, fired: seq<int>) {
    Runs(m) ==>
      && fired == Multiples(base, m.period.value, |fired|) && m.zero == base + |fired| * m.period.value
      && m.current.Some? && m.current.value in c && m.current.value.t == m.zero + m.period.value
  }

  /** Every timer that runs does so, except perhaps `but`, which is being changed. */
  ghost predicate AllRun(c: set<Event>, alarms: seq<Alarm>, epochs: seq<Epoch>, log: seq<Event>, but: Option<nat>) {
    && |epochs| == |alarms|
    && forall a: nat :: a < |alarms| ==> epochs[a].from <= |log| && (but == Some(a) || RunsOn(c, alarms[a], epochs[a], log, a))
  }

  ghost predicate RunsOn(c: set<Event>, m: Alarm, ep: Epoch, log: seq<Event>, a: nat) {
    ep.from <= |log| && RunAt(c, m, ep.base, FiredAt(log[ep.from..], a))
  }

  // ---- the timer system ----

  class TimerSystem {
    var queue: set<Event>
    var next: nat
    var time: int
    var alarms: seq<Alarm>

    ghost var cancelled: set<Event>
    ghost var log: seq<Event>
    ghost var epochs: seq<Epoch>
    /** The place in the log since which alarms have fired in order. */
    ghost var ordered: nat

    ghost predicate QueueValid()
      reads this
    {
      QueueOk(queue, alarms, next) && GoneOk(queue, cancelled, log, next)
    }

    ghost predicate OrderValid()
      reads this
    {
      ordered <= |log| && OrderOk(queue, log[ordered..])
    }

    ghost predicate ValidBut(but: Option<nat>)
      reads this
    {
      QueueValid() && OrderValid() && |epochs| == |alarms| && AllRun(queue, alarms, epochs, log, but)
    }

    /** What holds between any two operations. */
    ghost predicate Valid()
      reads this
    {
      ValidBut(None) && forall e :: e in log ==> e.t <= time
    }

    constructor (now: int)
      ensures Valid() && alarms == [] && epochs == [] && time == now && log == [] && cancelled == {} && ordered == 0
    {
      queue, next, time, alarms := {}, 0, now, [];
      cancelled, log, epochs, ordered := {}, [], [], 0;
    }

    /** `at_state::do_cancel`: the alarm's event leaves the queue, if it is still there. */
    method DoCancel(a: nat)
      requires QueueValid() && a < |alarms|
      modifies this`queue, this`alarms, this`cancelled
      ensures QueueValid() && alarms == old(alarms)[a := old(alarms)[a].(current := None)]
      ensures queue == Others(old(queue), a) && forall e :: e in queue <==> e in old(queue) && e.alarm != a
      ensures cancelled == old(cancelled) + (old(queue) - queue)
    {
      var current := alarms[a].current;
      if current.Some? {
        if current.value in queue {
          cancelled := cancelled + {current.value};
        }
        queue := queue - {current.value};
      }
      alarms := alarms[a := alarms[a].(current := None)];
    }

    /** The handler that `at` listens with: cancel, then queue the new deadline under a fresh number. */
    method SetAlarm(a: nat, deadline: Option<int>)
      requires QueueValid() && a < |alarms| && alarms[a].listening
      modifies this`queue, this`alarms, this`cancelled, this`next
      ensures QueueValid() && next == old(next) + if deadline.Some? then 1 else 0
      ensures alarms == old(alarms)[a := old(alarms)[a].(current := Numbered(a, deadline, next))]
      ensures queue == Others(old(queue), a) + Queued(Numbered(a, deadline, next))
      ensures cancelled == old(cancelled) + (old(queue) - Others(old(queue), a))
    {
      hide QueueOk, GoneOk, Others;
      DoCancel(a);
      NewlyQueued(queue, alarms, next, cancelled, log, a, deadline);
      if deadline.Some? {
        next := next + 1;
        var e := Event(deadline.value, next, a);
        alarms, queue := alarms[a := alarms[a].(current := Some(e))], queue + {e};
      }
    }

    /** Set the alarm, and note whether firing order survives: it does exactly when the deadline does not
        lie before an alarm that has fired since the order last held. */
    method Rearm(a: nat, deadline: Option<int>)
      requires ValidBut(Some(a)) && a < |alarms| && alarms[a].listening
      modifies this`queue, this`alarms, this`cancelled, this`next, this`ordered
      ensures ValidBut(Some(a)) && next == old(next) + if deadline.Some? then 1 else 0
      ensures alarms == old(alarms)[a := old(alarms)[a].(current := Numbered(a, deadline, next))]
      ensures queue == Others(old(queue), a) + Queued(Numbered(a, deadline, next))
      ensures cancelled == old(cancelled) + (old(queue) - Others(old(queue), a))
      ensures ordered == if TooEarly(deadline, log[old(ordered)..]) then |log| else old(ordered)
      ensures OrderOk(queue, log[old(ordered)..]) <==> !TooEarly(deadline, log[old(ordered)..])
    {
      hide QueueOk, OrderOk, AllRun, Others;
      ghost var c, ms, next0 := queue, alarms, next;
      ghost var e := Numbered(a, deadline, next + 1);
      SetInOrder(c, log, ordered, next, cancelled, a, deadline);
      SetAlarm(a, deadline);
      assert deadline.None? ==> Queued(e) == {};
      OthersRun(c, queue, ms, alarms, epochs, log, next0, a);
      if TooEarly(deadline, log[ordered..]) {
        ordered := |log|;
        NothingFired(queue, log);
      }
    }

    /** `at`: a new alarm with its first deadline. */
    method StartAt(deadline: Option<int>) returns (a: nat)
      requires Valid()
      modifies this
      ensures Valid() && a == |old(alarms)| && log == old(log) && time == old(time) && cancelled == old(cancelled)
      ensures alarms == old(alarms) + [Alarm(false, true, None, time, Numbered(a, deadline, next))]
      ensures epochs[..a] == old(epochs) && queue == old(queue) + Queued(Numbered(a, deadline, next))
      ensures ordered == if TooEarly(deadline, log[old(ordered)..]) then |log| else old(ordered)
    {
      hide QueueOk, GoneOk, OrderOk, AllRun, Others;
      a := AddAlarm(false, None);
      Rearm(a, deadline);
      AllBut(queue, alarms, epochs, log, a);
    }

    /** `periodic_timer`: a new alarm, first due one period after the current time if it has a period. */
    method StartPeriodic(period: Option<int>) returns (a: nat)
      requires Valid()
      modifies this
      ensures Valid() && a == |old(alarms)| && log == old(log) && time == old(time) && cancelled == old(cancelled)
      ensures alarms == old(alarms) + [Alarm(true, true, period, time, Numbered(a, After(time, period), next))]
      ensures epochs == old(epochs) + [Epoch(time, |log|)]
      ensures queue == old(queue) + Queued(Numbered(a, After(time, period), next))
      ensures ordered == if TooEarly(After(time, period), log[old(ordered)..]) then |log| else old(ordered)
    {
      hide QueueOk, GoneOk, OrderOk, AllRun, Others;
      a := AddAlarm(true, period);
      Rearm(a, After(time, period));
      AllBut(queue, alarms, epochs, log, a);
    }

    /** A new alarm with nothing queued. */
    method AddAlarm(timer: bool, period: Option<int>) returns (a: nat)
      requires Valid()
      modifies this`alarms, this`epochs
      ensures ValidBut(Some(a)) && a == |old(alarms)| && Others(queue, a) == queue
      ensures alarms == old(alarms) + [Alarm(timer, true, period, time, None)]
      ensures epochs == old(epochs) + [Epoch(time, |log|)]
    {
      a := |alarms|;
      OneMoreRuns(queue, alarms, epochs, log, Alarm(timer, true, period, time, None), Epoch(time, |log|));
      alarms, epochs := alarms + [Alarm(timer, true, period, time, None)], epochs + [Epoch(time, |log|)];
      hide AllRun, OrderOk;
    }

    /** A change of an alarm's deadline. */
    method SetDeadline(a: nat, deadline: Option<int>)
      requires Valid() && a < |alarms| && !alarms[a].timer
      modifies this`queue, this`alarms, this`cancelled, this`next, this`ordered
      ensures Valid()
      ensures if !old(alarms)[a].listening then alarms == old(alarms) && queue == old(queue) && ordered == old(ordered)
              else && alarms == old(alarms)[a := old(alarms)[a].(current := Numbered(a, deadline, next))]
                   && queue == Others(old(queue), a) + Queued(Numbered(a, deadline, next))
                   && ordered == if TooEarly(deadline, log[old(ordered)..]) then |log| else old(ordered)
      ensures cancelled == old(cancelled) + (old(queue) - queue)
    {
      hide QueueOk, GoneOk, OrderOk, AllRun, Others;
      if alarms[a].listening {
        AllBut(queue, alarms, epochs, log, a);
        FreshlyQueued(queue, alarms, next, a, deadline);
        Rearm(a, deadline);
        AllBut(queue, alarms, epochs, log, a);
      }
    }

    /** A change of a timer's period: a running timer is set anew from the time it last fired. Firing order
        survives exactly when the new deadline is not before an alarm that already fired in order. */
    method SetPeriod(a: nat, period: Option<int>)
      requires Valid() && a < |alarms| && alarms[a].timer
      modifies this`queue, this`alarms, this`cancelled, this`next, this`ordered, this`epochs
      ensures Valid() && epochs == old(epochs)[a := Epoch(old(alarms)[a].zero, |log|)]
      ensures if !old(alarms)[a].listening
              then alarms == old(alarms)[a := old(alarms)[a].(period := period)] && queue == old(queue) && ordered == old(ordered)
              else var deadline := After(old(alarms)[a].zero, period);
                   && alarms == old(alarms)[a := old(alarms)[a].(period := period, current := Numbered(a, deadline, next))]
                   && queue == Others(old(queue), a) + Queued(Numbered(a, deadline, next))
                   && ordered == (if TooEarly(deadline, log[old(ordered)..]) then |log| else old(ordered))
                   && (OrderOk(queue, log[old(ordered)..]) <==> !TooEarly(deadline, log[old(ordered)..]))
      ensures cancelled == old(cancelled) + (old(queue) - queue)
    {
      hide QueueOk, GoneOk, OrderOk, AllRun, Others;
      var m := alarms[a].(period := period);
      Retimed(queue, alarms, epochs, log, next, a, m, Epoch(m.zero, |log|));
      alarms, epochs := alarms[a := m], epochs[a := Epoch(m.zero, |log|)];
      if m.listening {
        FreshlyQueued(queue, alarms, next, a, After(m.zero, period));
        Rearm(a, After(m.zero, period));
      }
      AllBut(queue, alarms, epochs, log, a);
    }

    /** Disposal: the alarm stops listening and its event is cancelled. */
    method Dispose(a: nat)
      requires Valid() && a < |alarms|
      modifies this`queue, this`alarms, this`cancelled
      ensures Valid() && alarms == old(alarms)[a := old(alarms)[a].(listening := false, current := None)]
      ensures queue == Others(old(queue), a) && cancelled == old(cancelled) + (old(queue) - queue)
    {
      hide AllRun, OrderOk;
      ghost var c, ms, next0 := queue, alarms, next;
      DoCancel(a);
      alarms := alarms[a := alarms[a].(listening := false)];
      FewerInOrder(c, queue, log[ordered..]);
      AllBut(c, ms, epochs, log, a);
      OthersRun(c, queue, ms, alarms, epochs, log, next0, a);
      AllBut(queue, alarms, epochs, log, a);
    }

    // ---- the tick ----

    /** The state just after the due event `e` was taken from the front of the queue. */
    ghost predicate Popped(e: Event)
      reads this
    {
      && ValidBut(Some(e.alarm)) && e !in queue && e.serial <= next && e !in cancelled
      && e.alarm < |alarms| && alarms[e.alarm].current == Some(e) && alarms[e.alarm].listening
      && Others(queue, e.alarm) == queue && epochs[e.alarm].from <= |log|
      && (Runs(alarms[e.alarm]) ==> DueNow(alarms[e.alarm], epochs[e.alarm], log, e))
      && (forall f :: f in log[ordered..] ==> Before(f, e)) && (forall f :: f in queue ==> Before(e, f))
    }

    /** One alarm goes off. If it is a timer's, `t_zero` takes its time and the alarm is set one period later. */
    method Fire(e: Event)
      requires Popped(e)
      modifies this`queue, this`alarms, this`next, this`log, this`time, this`ordered, this`cancelled
      ensures ValidBut(None) && log == old(log) + [e] && time == e.t && cancelled == old(cancelled)
      ensures Settings(old(alarms), alarms) && alarms == old(alarms)[e.alarm := alarms[e.alarm]]
      ensures (Runs(old(alarms)[e.alarm]) ==> old(alarms)[e.alarm].period.value > 0) ==> ordered == old(ordered)
      ensures if Runs(old(alarms)[e.alarm])
              then var n := Event(e.t + old(alarms)[e.alarm].period.value, next, e.alarm);
                   n !in old(queue) && queue == old(queue) + {n} && alarms[e.alarm].current == Some(n)
              else queue == old(queue)
    {
      hide QueueOk, GoneOk, OrderOk, AllRun, Others;
      var a := e.alarm;
      ghost var ms, log0 := alarms, log;
      var m := if alarms[a].timer then alarms[a].(zero := e.t) else alarms[a];
      RecordFiring(e, m);
      NotTooEarly(log0, ordered, e, m.period);
      FreshlyQueued(queue, alarms, next, a, After(m.zero, m.period));
      if m.timer {
        Rearm(a, After(m.zero, m.period));
      }
      FiredRuns(queue, alarms, epochs, log0, e, ms[a]);
      AllBut(queue, alarms, epochs, log, a);
      SettingsKept(ms, alarms, a);
    }

    method RecordFiring(e: Event, m: Alarm)
      requires Popped(e) && m == if alarms[e.alarm].timer then alarms[e.alarm].(zero := e.t) else alarms[e.alarm]
      modifies this`log, this`alarms, this`time
      ensures ValidBut(Some(e.alarm)) && Others(queue, e.alarm) == queue
      ensures log == old(log) + [e] && alarms == old(alarms)[e.alarm := m] && time == e.t
    {
      hide AllRun, OrderOk, Others;
      LogInOrder(queue, log, ordered, e);
      LoggedRun(queue, alarms, epochs, log, e, m);
      log, alarms, time := log + [e], alarms[e.alarm := m], e.t;
    }

    /** The hook that runs before a transaction: let every alarm due by `now` go off, in order, including
        those that get due on the way. Nothing that was cancelled does, and nothing else is lost. */
    method Tick(now: int)
      requires Valid() && Steady(alarms, now) && time <= now
      modifies this`queue, this`alarms, this`next, this`log, this`time, this`ordered, this`cancelled
      ensures Valid() && time == now && (forall e :: e in queue ==> e.t > now)
      ensures old(log) <= log && Settings(old(alarms), alarms) && ordered == old(ordered) && cancelled == old(cancelled)
      ensures forall e :: e in old(queue) ==> if e.t <= now then e in log else e in queue
      ensures forall i, j :: ordered <= i < j < |log| ==>
                log[i].t < log[j].t || (log[i].t == log[j].t && log[i].serial < log[j].serial)
    {
      hide QueueOk, GoneOk, OrderOk, AllRun, Work, Steady;
      while true
        invariant ValidBut(None) && Steady(alarms, now) && (forall e :: e in log ==> e.t <= now)
        invariant old(log) <= log && Settings(old(alarms), alarms) && ordered == old(ordered) && cancelled == old(cancelled)
        invariant forall e :: e in old(queue) ==> e in queue || e in log
        decreases Work(queue, now)
      {
        var more := TickOne(now);
        if !more {
          break;
        }
      }
      LoggedInOrder(queue, log, ordered);
      time := now;
    }

    /** One turn of the loop. From a steady state it leaves less to do; from any other it leaves a state
        that is not steady, in which there is more to do: the loop ends exactly from steady states. */
    method TickOne(now: int) returns (more: bool)
      requires ValidBut(None) && forall e :: e in log ==> e.t <= now
      modifies this`queue, this`alarms, this`next, this`log, this`time, this`ordered, this`cancelled
      ensures ValidBut(None) && (forall e :: e in log ==> e.t <= now)
      ensures old(log) <= log && Settings(old(alarms), alarms) && cancelled == old(cancelled)
      ensures forall e :: e in old(queue) ==> e in queue || e in log
      ensures old(Steady(alarms, now)) ==> Steady(alarms, now) && ordered == old(ordered)
      ensures old(Steady(alarms, now)) && more ==> Work(queue, now) < old(Work(queue, now))
      ensures !old(Steady(alarms, now)) ==> more && !Steady(alarms, now)
      ensures !more ==> queue == old(queue) && log == old(log) && (forall e :: e in queue ==> e.t > now)
    {
      hide QueueOk, GoneOk, AllRun, OrderOk, Work, Others, Steady;
      QueueApart(queue, alarms, next);
      var r, rest := PopDue(queue, now);
      if r.None? {
        NothingDue(queue, alarms, epochs, log, now);
        return false;
      }
      ghost var e, ms := r.value, alarms;
      WorkSplit(queue, e, now);
      PoppedFront(queue, alarms, epochs, log, ordered, next, cancelled, e);
      queue := rest;
      Fire(r.value);
      StaysSteady(ms, alarms, e, now);
      if Runs(ms[e.alarm]) {
        ghost var n := Event(e.t + ms[e.alarm].period.value, next, e.alarm);
        WorkSplit(queue, n, now);
        assert queue - {n} == rest;
      }
      more := true;
    }
  }

  /** Every running timer that is due has a positive period. */
  ghost predicate Steady(ms: seq<Alarm>, now: int) {
    forall a :: 0 <= a < |ms| && DueBy(ms[a], now) ==> ms[a].period.value > 0
  }

  predicate DueBy(m: Alarm, now: int) {
    Runs(m) && m.current.Some? && m.current.value.t <= now
  }

  lemma NothingDue(c: set<Event>, ms: seq<Alarm>, epochs: seq<Epoch>, log: seq<Event>, now: int)
    requires AllRun(c, ms, epochs, log, None) && forall e :: e in c ==> e.t > now
    ensures Steady(ms, now)
  {
    forall a | 0 <= a < |ms|
      ensures !DueBy(ms[a], now)
    {
      assert RunsOn(c, ms[a], epochs[a], log, a);
    }
  }

  /** Setting a timer one period after it fired keeps a steady state steady, and an unsteady one unsteady. */
  lemma StaysSteady(ms: seq<Alarm>, ms': seq<Alarm>, e: Event, now: int)
    requires e.alarm < |ms| == |ms'| && ms' == ms[e.alarm := ms'[e.alarm]] && Settings(ms, ms')
    requires ms[e.alarm].current == Some(e) && e.t <= now
    requires var m := ms[e.alarm];
             Runs(m) ==> ms'[e.alarm].current.Some? && ms'[e.alarm].current.value.t == e.t + m.period.value
    ensures Steady(ms, now) <==> Steady(ms', now)
    ensures Steady(ms, now) && Runs(ms[e.alarm]) ==> ms[e.alarm].period.value > 0
  {
    var a := e.alarm;
    if !Steady(ms, now) {
      var b :| 0 <= b < |ms| && DueBy(ms[b], now) && ms[b].period.value <= 0;
      assert DueBy(ms'[b], now);
    }
    if !Steady(ms', now) {
      var b :| 0 <= b < |ms'| && DueBy(ms'[b], now) && ms'[b].period.value <= 0;
      assert DueBy(ms[b], now);
    }
    assert Runs(ms[a]) ==> DueBy(ms[a], now);
  }

  // ---- deadlines ----

  /** One period after `t`, if there is a period. */
  function After(t: int, period: Option<int>): Option<int> {
    if period.Some? then Some(t + period.value) else None
  }

  /** The event for a deadline. */
  function Numbered(a: nat, deadline: Option<int>, serial: nat): Option<Event> {
    if deadline.Some? then Some(Event(deadline.value, serial, a)) else None
  }

  function Queued(e: Option<Event>): set<Event> {
    if e.Some? then {e.value} else {}
  }

  /** The events of other alarms. */
  function Others(c: set<Event>, a: nat): set<Event> {
    set e | e in c && e.alarm != a
  }

  /** The deadline lies before an alarm that has fired. */
  ghost predicate TooEarly(deadline: Option<int>, log: seq<Event>) {
    deadline.Some? && exists e :: e in log && e.t > deadline.value
  }

  /** Nothing but deadlines and firing times has changed. */
  ghost predicate Settings(ms: seq<Alarm>, ms': seq<Alarm>) {
    |ms| == |ms'| && forall a :: 0 <= a < |ms| ==>
      ms'[a].timer == ms[a].timer && ms'[a].listening == ms[a].listening && ms'[a].period == ms[a].period
  }

  /** The event `e` is the one that the running timer `m` is due for. */
  ghost predicate DueNow(m: Alarm, ep: Epoch, log: seq<Event>, e: Event)
    requires m.period.Some?
  {
    && ep.from <= |log| && e.t == m.zero + m.period.value
    && var fired := FiredAt(log[ep.from..], e.alarm);
       fired == Multiples(ep.base, m.period.value, |fired|) && m.zero == ep.base + |fired| * m.period.value
  }

  lemma AllBut(c: set<Event>, ms: seq<Alarm>, epochs: seq<Epoch>, log: seq<Event>, a: nat)
    ensures AllRun(c, ms, epochs, log, None) ==> AllRun(c, ms, epochs, log, Some(a))
    ensures AllRun(c, ms, epochs, log, Some(a)) && (a < |ms| && a < |epochs| ==> RunsOn(c, ms[a], epochs[a], log, a))
            ==> AllRun(c, ms, epochs, log, None)
  {}

  /** Events of other alarms that stay queued keep their timers running. */
  lemma OthersRun(c: set<Event>, c': set<Event>, ms: seq<Alarm>, ms': seq<Alarm>, epochs: seq<Epoch>, log: seq<Event>,
                  next: nat, a: nat)
    requires QueueOk(c, ms, next) && AllRun(c, ms, epochs, log, Some(a)) && Others(c, a) <= c' && a < |ms| == |ms'|
    requires ms' == ms[a := ms'[a]]
    ensures AllRun(c', ms', epochs, log, Some(a))
  {
    hide FiredAt, Multiples;
    forall b: nat | b < |ms| && b != a
      ensures RunsOn(c', ms'[b], epochs[b], log, b)
    {
      assert RunsOn(c, ms[b], epochs[b], log, b);
    }
  }

  lemma OneMoreRuns(c: set<Event>, ms: seq<Alarm>, epochs: seq<Epoch>, log: seq<Event>, m: Alarm, ep: Epoch)
    requires AllRun(c, ms, epochs, log, None) && ep.from == |log|
    ensures AllRun(c, ms + [m], epochs + [ep], log, Some(|ms|))
  {
    hide RunsOn;
  }

  lemma Retimed(c: set<Event>, ms: seq<Alarm>, epochs: seq<Epoch>, log: seq<Event>, next: nat, a: nat, m: Alarm, ep: Epoch)
    requires QueueOk(c, ms, next) && AllRun(c, ms, epochs, log, None) && a < |ms| && ep.from == |log|
    requires m.current == ms[a].current && m.listening == ms[a].listening
    ensures QueueOk(c, ms[a := m], next) && AllRun(c, ms[a := m], epochs[a := ep], log, Some(a))
  {
    hide RunsOn, Apart;
  }

  /** A fresh event may be queued for an alarm that listens and has none. */
  lemma NewlyQueued(c: set<Event>, ms: seq<Alarm>, next: nat, cancelled: set<Event>, log: seq<Event>, a: nat,
                    deadline: Option<int>)
    requires QueueOk(c, ms, next) && GoneOk(c, cancelled, log, next) && a < |ms| && ms[a].listening && ms[a].current.None?
    ensures var e := Numbered(a, deadline, next + 1);
            && Queued(None) == {} && c + {} == c
            && (e.Some? ==> QueueOk(c + Queued(e), ms[a := ms[a].(current := e)], next + 1)
                            && GoneOk(c + Queued(e), cancelled, log, next + 1))
  {}

  lemma QueueApart(c: set<Event>, ms: seq<Alarm>, next: nat)
    requires QueueOk(c, ms, next)
    ensures Apart(c)
  {}

  lemma FreshlyQueued(c: set<Event>, ms: seq<Alarm>, next: nat, a: nat, deadline: Option<int>)
    requires QueueOk(c, ms, next)
    ensures var e := Numbered(a, deadline, next + 1);
            Queued(e) !! c && c - (Others(c, a) + Queued(e)) == c - Others(c, a) && Others(c, a) + {} == Others(c, a)
  {}

  /** Setting an alarm keeps the order exactly when its deadline is not too early. */
  lemma SetInOrder(c: set<Event>, log: seq<Event>, from: nat, next: nat, cancelled: set<Event>, a: nat, deadline: Option<int>)
    requires GoneOk(c, cancelled, log, next) && from <= |log| && OrderOk(c, log[from..])
    ensures OrderOk(Others(c, a) + Queued(Numbered(a, deadline, next + 1)), log[from..]) <==> !TooEarly(deadline, log[from..])
  {
    var c' := Others(c, a) + Queued(Numbered(a, deadline, next + 1));
    assert forall e :: e in log[from..] ==> e in log;
    if TooEarly(deadline, log[from..]) {
      var e :| e in log[from..] && e.t > deadline.value;
      assert Event(deadline.value, next + 1, a) in c';
    }
  }

  lemma LoggedInOrder(c: set<Event>, log: seq<Event>, from: nat)
    requires from <= |log| && OrderOk(c, log[from..])
    ensures forall i, j :: from <= i < j < |log| ==>
              log[i].t < log[j].t || (log[i].t == log[j].t && log[i].serial < log[j].serial)
  {
    forall i, j | from <= i < j < |log|
      ensures Before(log[i], log[j])
    {
      assert log[from..][i - from] == log[i] && log[from..][j - from] == log[j];
    }
  }

  lemma NothingFired(c: set<Event>, log: seq<Event>)
    ensures log[|log|..] == [] && OrderOk(c, log[|log|..])
  {}

  lemma FewerInOrder(c: set<Event>, c': set<Event>, log: seq<Event>)
    requires OrderOk(c, log) && c' <= c
    ensures OrderOk(c', log)
  {}

  /** A timer that has fired this very moment is not due before anything that fired. */
  lemma NotTooEarly(log: seq<Event>, from: nat, e: Event, period: Option<int>)
    requires from <= |log| && forall f :: f in log[from..] ==> Before(f, e)
    ensures (period.Some? ==> period.value > 0) ==> !TooEarly(After(e.t, period), (log + [e])[from..])
  {
    assert (log + [e])[from..] == log[from..] + [e];
  }

  lemma LogInOrder(c: set<Event>, log: seq<Event>, from: nat, e: Event)
    requires from <= |log| && OrderOk(c, log[from..])
    requires (forall f :: f in log[from..] ==> Before(f, e)) && (forall f :: f in c ==> Before(e, f))
    ensures OrderOk(c, (log + [e])[from..])
  {
    assert (log + [e])[from..] == log[from..] + [e];
  }

  lemma LoggedRun(c: set<Event>, ms: seq<Alarm>, epochs: seq<Epoch>, log: seq<Event>, e: Event, m: Alarm)
    requires AllRun(c, ms, epochs, log, Some(e.alarm)) && e.alarm < |ms|
    ensures AllRun(c, ms[e.alarm := m], epochs, log + [e], Some(e.alarm))
  {
    forall b: nat | b < |ms| && b != e.alarm
      ensures RunsOn(c, ms[b], epochs[b], log + [e], b)
    {
      assert RunsOn(c, ms[b], epochs[b], log, b);
      assert (log + [e])[epochs[b].from..] == log[epochs[b].from..] + [e];
      FiredAtAppend(log[epochs[b].from..], e, b);
    }
    hide FiredAt, Multiples, RunsOn;
  }

  lemma NextMultiple(base: int, period: int, fired: seq<int>, t: int)
    requires fired == Multiples(base, period, |fired|) && t == base + |fired| * period + period
    ensures fired + [t] == Multiples(base, period, |fired + [t]|) && t == base + |fired + [t]| * period
  {
    assert |fired + [t]| == |fired| + 1;
    assert (|fired| + 1) * period == |fired| * period + period;
  }

  /** A timer that fired and was set again runs on. */
  lemma FiredRuns(c: set<Event>, ms: seq<Alarm>, epochs: seq<Epoch>, log: seq<Event>, e: Event, m: Alarm)
    requires |epochs| == |ms| && e.alarm < |ms| && epochs[e.alarm].from <= |log|
    requires ms[e.alarm].timer == m.timer && ms[e.alarm].listening == m.listening && ms[e.alarm].period == m.period
    requires Runs(m) ==> DueNow(m, epochs[e.alarm], log, e) && ms[e.alarm].zero == e.t
    requires Runs(m) ==> var ev := ms[e.alarm].current; ev.Some? && ev.value in c && ev.value.t == e.t + m.period.value
    ensures RunsOn(c, ms[e.alarm], epochs[e.alarm], log + [e], e.alarm)
  {
    var ep := epochs[e.alarm];
    assert (log + [e])[ep.from..] == log[ep.from..] + [e];
    FiredAtAppend(log[ep.from..], e, e.alarm);
    if Runs(m) {
      NextMultiple(ep.base, m.period.value, FiredAt(log[ep.from..], e.alarm), e.t);
    }
    hide FiredAt, Multiples;
  }

  lemma SettingsKept(ms: seq<Alarm>, ms': seq<Alarm>, a: nat)
    requires a < |ms| == |ms'| && ms' == ms[a := ms'[a]]
    requires ms'[a].timer == ms[a].timer && ms'[a].listening == ms[a].listening && ms'[a].period == ms[a].period
    ensures Settings(ms, ms')
  {}

  /** Taking the least event from the queue. */
  lemma PoppedFront(c: set<Event>, ms: seq<Alarm>, epochs: seq<Epoch>, log: seq<Event>, from: nat, next: nat,
                    cancelled: set<Event>, e: Event)
    requires QueueOk(c, ms, next) && GoneOk(c, cancelled, log, next) && from <= |log| && OrderOk(c, log[from..])
    requires AllRun(c, ms, epochs, log, None) && e in c && forall f :: f in c - {e} ==> Before(e, f)
    ensures QueueOk(c - {e}, ms, next) && GoneOk(c - {e}, cancelled, log, next) && OrderOk(c - {e}, log[from..])
    ensures e.serial <= next && e !in cancelled && e.alarm < |ms| && ms[e.alarm].current == Some(e) && ms[e.alarm].listening
    ensures AllRun(c - {e}, ms, epochs, log, Some(e.alarm)) && Others(c - {e}, e.alarm) == c - {e}
    ensures e.alarm < |epochs| && epochs[e.alarm].from <= |log|
    ensures Runs(ms[e.alarm]) ==> DueNow(ms[e.alarm], epochs[e.alarm], log, e)
    ensures forall f :: f in log[from..] ==> Before(f, e)
  {
    hide AllRun;
    OthersLeft(c, ms, next, e);
    FewerInOrder(c, c - {e}, log[from..]);
    AllBut(c, ms, epochs, log, e.alarm);
    OthersRun(c, c - {e}, ms, ms, epochs, log, next, e.alarm);
    PoppedDue(c, ms, epochs, log, e);
  }

  lemma OthersLeft(c: set<Event>, ms: seq<Alarm>, next: nat, e: Event)
    requires QueueOk(c, ms, next) && e in c
    ensures Others(c, e.alarm) == c - {e} == Others(c - {e}, e.alarm)
  {}

  lemma PoppedDue(c: set<Event>, ms: seq<Alarm>, epochs: seq<Epoch>, log: seq<Event>, e: Event)
    requires AllRun(c, ms, epochs, log, None) && e.alarm < |ms| && ms[e.alarm].current == Some(e)
    ensures e.alarm < |epochs| && epochs[e.alarm].from <= |log|
    ensures Runs(ms[e.alarm]) ==> DueNow(ms[e.alarm], epochs[e.alarm], log, e)
  {
    assert RunsOn(c, ms[e.alarm], epochs[e.alarm], log, e.alarm);
  }

  // ---- when timers fire ----

  /** Once the clock has passed everything queued no more, a running timer has fired since it got its period
      at exactly the multiples of that period that have passed. */
  lemma FiredExactlyWhenDue(s: TimerSystem, a: nat, j: nat)
    requires s.Valid() && (forall e :: e in s.queue ==> e.t > s.time) && j >= 1
    requires a < |s.alarms| && Runs(s.alarms[a]) && s.alarms[a].period.value > 0
    ensures a < |s.epochs| && s.epochs[a].from <= |s.log|
    ensures var t := s.epochs[a].base + j * s.alarms[a].period.value;
            t in FiredAt(s.log[s.epochs[a].from..], a) <==> t <= s.time
  {
    var m, ep := s.alarms[a], s.epochs[a];
    assert RunsOn(s.queue, m, ep, s.log, a);
    var fired := FiredAt(s.log[ep.from..], a);
    forall t | t in fired
      ensures t <= s.time
    {
      var e := FiredAtLogged(s.log[ep.from..], a, t);
      assert e in s.log;
    }
    MultiplesUpTo(ep.base, m.period.value, fired, s.time, j);
  }

  lemma MultiplesUpTo(base: int, period: int, fired: seq<int>, time: int, j: nat)
    requires period > 0 && fired == Multiples(base, period, |fired|) && j >= 1
    requires (forall t :: t in fired ==> t <= time) && base + |fired| * period + period > time
    ensures base + j * period in fired <==> base + j * period <= time
  {
    var k := |fired|;
    if j <= k {
      assert fired[j - 1] == base + j * period;
    } else {
      LaterMultiple(period, k, j);
      assert base + j * period > time;
    }
  }

  lemma {:induction false} LaterMultiple(period: int, k: nat, j: nat)
    requires period > 0 && j > k
    ensures j * period >= k * period + period
    decreases j
  {
    assert j * period == (j - 1) * period + period;
    if j > k + 1 {
      LaterMultiple(period, k, j - 1);
    }
  }

  lemma {:induction false} FiredAtLogged(log: seq<Event>, a: nat, t: int) returns (e: Event)
    requires t in FiredAt(log, a)
    ensures e in log && e.t == t && e.alarm == a
  {
    var last := log[|log| - 1];
    if last.alarm == a && last.t == t {
      e := last;
    } else {
      e := FiredAtLogged(log[..|log| - 1], a, t);
    }
  }

  // ---- firing order can be lost ----

  /** A running timer last fired at a multiple of its period that has passed, or not at all. */
  lemma LastFiring(s: TimerSystem, a: nat) returns (k: nat)
    requires s.Valid() && a < |s.alarms| && Runs(s.alarms[a])
    ensures a < |s.epochs| && s.alarms[a].zero == s.epochs[a].base + k * s.alarms[a].period.value
    ensures k > 0 ==> s.alarms[a].zero <= s.time
  {
    var m, ep := s.alarms[a], s.epochs[a];
    assert RunsOn(s.queue, m, ep, s.log, a);
    var fired := FiredAt(s.log[ep.from..], a);
    k := |fired|;
    if k > 0 {
      assert fired[k - 1] == m.zero;
      var e := FiredAtLogged(s.log[ep.from..], a, m.zero);
      assert e in s.log;
    }
  }

  /** Where in the log a multiple that has passed stands. */
  lemma FiredSince(s: TimerSystem, a: nat, j: nat) returns (i: nat)
    requires s.Valid() && (forall e :: e in s.queue ==> e.t > s.time) && j >= 1
    requires a < |s.alarms| && Runs(s.alarms[a]) && s.alarms[a].period.value > 0
    requires a < |s.epochs| && s.epochs[a].base + j * s.alarms[a].period.value <= s.time
    ensures s.epochs[a].from <= i < |s.log| && s.log[i].t == s.epochs[a].base + j * s.alarms[a].period.value
  {
    FiredExactlyWhenDue(s, a, j);
    var since := s.log[s.epochs[a].from..];
    var e := FiredAtLogged(since, a, s.epochs[a].base + j * s.alarms[a].period.value);
    var k :| 0 <= k < |since| && since[k] == e;
    i := s.epochs[a].from + k;
  }

  /** Two timers of periods 10 and 100 run until 50; then the second gets the period 20, and its alarm for
      time 20 goes off after the first one's for time 50. */
  method OrderCanBeLost() returns (s: TimerSystem)
    ensures s.Valid() && exists i, j :: 0 <= i < j < |s.log| && Before(s.log[j], s.log[i])
  {
    hide TimerSystem.Valid, OrderOk, TooEarly, Others, FiredAt, Multiples, QueueOk, GoneOk, AllRun;
    s := new TimerSystem(0);
    var a := s.StartPeriodic(Some(10));
    var b := s.StartPeriodic(Some(100));
    s.Tick(50);
    ghost var first := FiredSince(s, 0, 5);
    ghost var k := LastFiring(s, 1);
    ghost var log := s.log;
    s.SetPeriod(1, Some(20));
    s.Tick(60);
    ghost var second := FiredSince(s, 1, 1);
    assert Before(s.log[second], s.log[first]);
  }
}
