/** The debouncer that batches Gateway updates: a mutex-protected map from gateway to
    timer, and the timers themselves, each of which may already have fired (its goroutine
    waiting for the mutex) when Stop is called on it. */
module Debouncer {
  import opened Options

  /** Armed: counting down. Stopped: Stop won. Waiting: fired, its callback wants the lock.
      Started: the callback has removed the map entry and goes on to list the routes.
      Listed: it has begun listing them. */
  datatype Status = Armed | Stopped | Waiting | Started | Listed
  datatype Timer = Timer(gateway: string, status: Status)
  datatype State = State(timers: seq<Timer>, pending: map<string, nat>)

  const Initial := State([], map[])

  function WithStatus(s: State, t: nat, status: Status): State
    requires t < |s.timers|
  {
    s.(timers := s.timers[t := s.timers[t].(status := status)])
  }

  /** timer.Stop: prevents the callback only if the timer has not fired yet. */
  function AfterStop(s: State, t: nat): State {
    if t < |s.timers| && s.timers[t].status == Armed then WithStatus(s, t, Stopped) else s
  }

  /** The effect of scheduleGatewayUpdate. */
  function AfterSchedule(s: State, g: string): State {
    var s1 := if g in s.pending then AfterStop(s, s.pending[g]) else s;
    State(s1.timers + [Timer(g, Armed)], s1.pending[g := |s1.timers|])
  }

  datatype Action =
    | Schedule(gateway: string)
    | Fire(timer: nat)
    | Begin(timer: nat)
    | List(timer: nat)

  predicate Enabled(s: State, a: Action) {
    match a
    case Schedule(_) => true
    case Fire(t) => t < |s.timers| && s.timers[t].status == Armed
    case Begin(t) => t < |s.timers| && s.timers[t].status == Waiting
    case List(t) => t < |s.timers| && s.timers[t].status == Started
  }

  function After(s: State, a: Action): State
    requires Enabled(s, a)
  {
    match a
    case Schedule(g) => AfterSchedule(s, g)
    case Fire(t) => WithStatus(s, t, Waiting)
    case Begin(t) => WithStatus(s, t, Started).(pending := s.pending - {s.timers[t].gateway})
    case List(t) => WithStatus(s, t, Listed)
  }

  /** Every interleaving of schedules, expiring timers and callbacks. */
  ghost predicate Run(ss: seq<State>, acts: seq<Action>) {
    && |ss| == |acts| + 1 && ss[0] == Initial
    && forall i :: 0 <= i < |acts| ==> Enabled(ss[i], acts[i]) && ss[i + 1] == After(ss[i], acts[i])
  }

  predicate Due(t: Timer) {
    t.status == Armed || t.status == Waiting
  }

  ghost predicate Superseded(s: State, t: nat)
    requires t < |s.timers|
  {
    exists u :: t < u < |s.timers| && s.timers[u].gateway == s.timers[t].gateway
  }

  /** A map entry names a timer for its gateway that is neither stopped nor run, and a
      stopped timer has a later one for the same gateway. */
  ghost predicate Inv(s: State) {
    && (forall g :: g in s.pending ==>
         s.pending[g] < |s.timers| && s.timers[s.pending[g]].gateway == g && Due(s.timers[s.pending[g]]))
    && (forall t: nat :: t < |s.timers| && s.timers[t].status == Stopped ==> Superseded(s, t))
  }

  lemma ScheduleKeepsInv(s: State, g: string)
    requires Inv(s)
    ensures Inv(AfterSchedule(s, g))
  {
    var r := AfterSchedule(s, g);
    assert r.timers[|s.timers|] == Timer(g, Armed);
    forall t: nat | t < |r.timers| && r.timers[t].status == Stopped ensures Superseded(r, t) {
      if s.timers[t].status == Stopped {
        var u :| t < u < |s.timers| && s.timers[u].gateway == s.timers[t].gateway;
        assert r.timers[u].gateway == r.timers[t].gateway;
      }
    }
  }

  lemma StepKeepsInv(s: State, a: Action)
    requires Inv(s) && Enabled(s, a)
    ensures Inv(After(s, a))
  {
    if a.Schedule? {
      ScheduleKeepsInv(s, a.gateway);
    } else {
      var r := After(s, a);
      assert forall i :: 0 <= i < |s.timers| ==> r.timers[i].gateway == s.timers[i].gateway;
      forall t: nat | t < |r.timers| && r.timers[t].status == Stopped ensures Superseded(r, t) {
        var u :| t < u < |s.timers| && s.timers[u].gateway == s.timers[t].gateway;
        assert r.timers[u].gateway == r.timers[t].gateway;
      }
    }
  }

  lemma {:induction false} RunKeepsInv(ss: seq<State>, acts: seq<Action>, i: nat)
    requires Run(ss, acts) && i < |ss|
    ensures Inv(ss[i])
  {
    if i > 0 {
      RunKeepsInv(ss, acts, i - 1);
      StepKeepsInv(ss[i - 1], acts[i - 1]);
    }
  }

  /** In every reachable state the callback of a gateway's latest schedule is armed,
      fired, or has gone on to list the routes: Stop never cancels it. */
  lemma LatestIsNeverStopped(ss: seq<State>, acts: seq<Action>, i: nat, t: nat)
    requires Run(ss, acts) && i < |ss| && t < |ss[i].timers|
    requires !Superseded(ss[i], t)
    ensures ss[i].timers[t].status != Stopped
    ensures forall g :: g in ss[i].pending ==>
              ss[i].pending[g] < |ss[i].timers| && Due(ss[i].timers[ss[i].pending[g]])
  {
    RunKeepsInv(ss, acts, i);
  }

  ghost predicate Outstanding(s: State, g: string) {
    exists t: nat :: t < |s.timers| && s.timers[t].gateway == g && (Due(s.timers[t]) || s.timers[t].status == Started)
  }

  /** A callback for g began listing routes in some step j with i < j < k. */
  ghost predicate ListedBetween(ss: seq<State>, acts: seq<Action>, g: string, i: nat, k: nat)
    requires |ss| == |acts| + 1 && k < |ss|
  {
    exists j :: i < j < k && acts[j].List? && acts[j].timer < |ss[j].timers| && ss[j].timers[acts[j].timer].gateway == g
  }

  /** A step keeps something outstanding for g unless it is a listing for g. */
  lemma StepKeepsOutstanding(s: State, a: Action, g: string)
    requires Inv(s) && Enabled(s, a) && Outstanding(s, g)
    ensures Outstanding(After(s, a), g) || (a.List? && s.timers[a.timer].gateway == g)
  {
    var r := After(s, a);
    var t: nat :| t < |s.timers| && s.timers[t].gateway == g && (Due(s.timers[t]) || s.timers[t].status == Started);
    if a == Schedule(g) {
      assert r.timers[|s.timers|] == Timer(g, Armed);
    } else if a.Schedule? {
      assert r.timers[t] == s.timers[t] by {
        if a.gateway in s.pending { assert s.pending[a.gateway] != t; }
      }
    } else {
      assert r.timers[t].gateway == g;
    }
  }

  /** No debounced request is lost, in any interleaving, including Stop losing to a timer
      that has already fired: once nothing is outstanding for a gateway, its routes have
      been listed after every request that was made for it. */
  lemma {:induction false} NoRequestIsLost(ss: seq<State>, acts: seq<Action>, g: string, i: nat, k: nat)
    requires Run(ss, acts) && i < |acts| && acts[i] == Schedule(g) && i < k < |ss|
    ensures Outstanding(ss[k], g) || ListedBetween(ss, acts, g, i, k)
    decreases k
  {
    RunKeepsInv(ss, acts, k - 1);
    if k == i + 1 {
      var t := |ss[i].timers|;
      assert ss[k].timers[t] == Timer(g, Armed);
    } else {
      NoRequestIsLost(ss, acts, g, i, k - 1);
      if Outstanding(ss[k - 1], g) {
        StepKeepsOutstanding(ss[k - 1], acts[k - 1], g);
      }
    }
  }

  /** The race does leave a mark: a callback that was already waiting removes the entry of
      the timer that replaced it, so the next schedule cannot stop that timer and two are
      armed for one gateway. The extra execution is harmless. */
  lemma RaceArmsTwoTimers() returns (ss: seq<State>, acts: seq<Action>)
    ensures Run(ss, acts)
    ensures var last := ss[|ss| - 1].timers;
            exists t: nat, u: nat :: t < u < |last| && last[t] == last[u] == Timer("gw", Armed)
  {
    var a := AfterSchedule(Initial, "gw");
    var b := After(a, Fire(0));
    var c := AfterSchedule(b, "gw");
    var d := After(c, Begin(0));
    var e := AfterSchedule(d, "gw");
    ss, acts := [Initial, a, b, c, d, e], [Schedule("gw"), Fire(0), Schedule("gw"), Begin(0), Schedule("gw")];
    assert e.timers[1] == e.timers[2] == Timer("gw", Armed);
  }

  /** What scheduling does: a pending timer that has not fired is stopped, one that has is left
      to run, no other timer is touched, and a new one is armed and pending. */
  lemma ScheduleMeaning(s: State, g: string)
    requires Inv(s)
    ensures var r, n := AfterSchedule(s, g), |s.timers|;
            && |r.timers| == n + 1 && r.timers[n] == Timer(g, Armed) && Get(r.pending, g) == Some(n)
            && (forall h :: h != g ==> Get(r.pending, h) == Get(s.pending, h))
            && forall t: nat :: t < n ==>
                 r.timers[t] == if Get(s.pending, g) == Some(t) && s.timers[t].status == Armed then Timer(g, Stopped) else s.timers[t]
  {
  }

  /** The armed timers of a gateway. */
  ghost function ArmedFor(s: State, g: string): set<nat> {
    set t: nat | t < |s.timers| && s.timers[t] == Timer(g, Armed)
  }

  function Burst(s: State, g: string, k: nat): State {
    if k == 0 then s else AfterSchedule(Burst(s, g, k - 1), g)
  }

  /** The armed timers of g are those in `others` and the pending one. */
  ghost predicate OnePending(s: State, g: string, others: set<nat>) {
    && Inv(s) && g in s.pending && s.pending[g] !in others
    && ArmedFor(s, g) == others + {s.pending[g]}
  }

  lemma NextOfBurst(s: State, g: string, others: set<nat>)
    requires Inv(s)
    requires if g in s.pending then OnePending(s, g, others) else ArmedFor(s, g) == others
    requires forall t :: t in others ==> t < |s.timers|
    ensures OnePending(AfterSchedule(s, g), g, others) && |AfterSchedule(s, g).timers| > |s.timers|
  {
    ScheduleKeepsInv(s, g);
    ScheduleMeaning(s, g);
    var r := AfterSchedule(s, g);
    hide AfterSchedule, Inv;
    forall t: nat ensures t in ArmedFor(r, g) <==> t in others || t == |s.timers| {
      if t < |s.timers| {
        assert t in ArmedFor(s, g) <==> s.timers[t] == Timer(g, Armed);
      }
    }
  }

  /** Requests in a burst are batched: however many come before the timer fires, they leave one
      armed timer more than there was when none was pending. */
  lemma {:induction false} BurstArmsOnce(s: State, g: string, k: nat)
    requires Inv(s) && g !in s.pending && k > 0
    ensures OnePending(Burst(s, g, k), g, ArmedFor(s, g)) && |Burst(s, g, k).timers| > |s.timers|
    ensures |ArmedFor(Burst(s, g, k), g)| == |ArmedFor(s, g)| + 1
  {
    hide Inv, AfterSchedule;
    if k > 1 {
      BurstArmsOnce(s, g, k - 1);
    }
    NextOfBurst(Burst(s, g, k - 1), g, ArmedFor(s, g));
  }

  /** The debouncer itself; `timers` is what the runtime keeps for time.AfterFunc. */
  class GatewayUpdateDebouncer {
    var pending: map<string, nat>
    var timers: seq<Timer>

    constructor ()
      ensures Abstract() == Initial
    {
      pending, timers := map[], [];
    }

    ghost function Abstract(): State
      reads this
    {
      State(timers, pending)
    }

    method Stop(t: nat) returns (stopped: bool)
      modifies `timers
      ensures Abstract() == AfterStop(old(Abstract()), t)
      ensures stopped == (t < |timers| && old(timers)[t].status == Armed)
    {
      stopped := t < |timers| && timers[t].status == Armed;
      if stopped {
        timers := timers[t := timers[t].(status := Stopped)];
      }
    }

    method AfterFunc(g: string) returns (t: nat)
      modifies `timers
      ensures t == |old(timers)| && timers == old(timers) + [Timer(g, Armed)]
    {
      t := |timers|;
      timers := timers + [Timer(g, Armed)];
    }

    method ScheduleGatewayUpdate(g: string)
      requires Inv(Abstract())
      modifies this
      ensures Abstract() == AfterSchedule(old(Abstract()), g)
      ensures Inv(Abstract())
    {
      ScheduleKeepsInv(Abstract(), g);
      if g in pending {
        var stopped := Stop(pending[g]);
      }
      var t := AfterFunc(g);
      pending := pending[g := t];
    }

    /** The part of executeGatewayUpdate that runs under the lock. */
    method BeginExecute(t: nat)
      requires Inv(Abstract()) && Enabled(Abstract(), Begin(t))
      modifies this
      ensures Abstract() == After(old(Abstract()), Begin(t))
      ensures Inv(Abstract())
    {
      StepKeepsInv(Abstract(), Begin(t));
      pending := pending - {timers[t].gateway};
      timers := timers[t := timers[t].(status := Started)];
    }
  }
}
