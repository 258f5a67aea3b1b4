/**
  The registration with the NRF: requests in flight, timers armed, and what each response or timeout
  starts next. Every response and every timeout hands on the one thing that keeps the loop going.
 */
module NrfLoop {
  /** `heartbeat` is the id of the heartbeat timer armed last, whether it is still armed or not. */
  datatype Nrf = Nrf(registering: nat, updating: nat, deregistering: nat, retries: nat, heartbeats: set<int>,
                     heartbeat: int, nextTimer: int)

  datatype Event =
    | Started(registration: bool)
    | RegisterAnswered(created: bool)
    | UpdateAnswered(noContent: bool)
    | DeregisterAnswered(noContent: bool)
    | RetryFires
    | HeartbeatFires(timer: int)
    | ConfigurationUpdated(accepted: bool, registration: bool)
    | Stopped

  const START := Nrf(0, 0, 0, 0, {}, 0, 1)

  /** Responses come to requests in flight only, and only armed timers fire. */
  predicate Enabled(s: Nrf, e: Event) {
    match e
    case RegisterAnswered(_) => s.registering > 0
    case UpdateAnswered(_) => s.updating > 0
    case DeregisterAnswered(_) => s.deregistering > 0
    case RetryFires => s.retries > 0
    case HeartbeatFires(t) => t in s.heartbeats
    case _ => true
  }

  function Register(s: Nrf): Nrf {
    s.(registering := s.registering + 1)
  }

  function ArmHeartbeat(s: Nrf): Nrf {
    s.(heartbeats := s.heartbeats + {s.nextTimer}, heartbeat := s.nextTimer, nextTimer := s.nextTimer + 1)
  }

  function Step(s: Nrf, e: Event): Nrf
    requires Enabled(s, e)
  {
    match e
    case Started(registration) => if registration then Register(s) else s
    case RegisterAnswered(created) =>
      var s1 := s.(registering := s.registering - 1);
      if created then ArmHeartbeat(s1) else s1.(retries := s1.retries + 1)
    case UpdateAnswered(noContent) =>
      var s1 := s.(updating := s.updating - 1);
      if noContent then ArmHeartbeat(s1) else Register(s1)
    case DeregisterAnswered(noContent) =>
      var s1 := s.(deregistering := s.deregistering - 1);
      if noContent then s1.(heartbeats := s1.heartbeats - {s1.heartbeat}) else s1
    case RetryFires => Register(s.(retries := s.retries - 1))
    case HeartbeatFires(t) => s.(heartbeats := s.heartbeats - {t}, updating := s.updating + 1)
    case ConfigurationUpdated(accepted, registration) => if accepted && registration then Register(s) else s
    case Stopped => s.(deregistering := s.deregistering + 1)
  }

  // ---- What each event leads to ----

  /** What is in flight and armed afterwards, each kind by itself. */
  ghost predicate Leads(s: Nrf, s': Nrf, registering: int, updating: int, deregistering: int, retries: int) {
    && s'.registering == s.registering + registering && s'.updating == s.updating + updating
    && s'.deregistering == s.deregistering + deregistering && s'.retries == s.retries + retries
  }

  /** The heartbeat timer armed now is a new one, and the one that a deregistration would remove. */
  ghost predicate ArmsHeartbeat(s: Nrf, s': Nrf) {
    s'.heartbeats == s.heartbeats + {s.nextTimer} && s'.heartbeat == s.nextTimer && s'.nextTimer == s.nextTimer + 1
  }

  ghost predicate SameTimers(s: Nrf, s': Nrf) {
    s'.heartbeats == s.heartbeats && s'.heartbeat == s.heartbeat && s'.nextTimer == s.nextTimer
  }

  /** A registration or an update that succeeds arms a heartbeat; one that fails is tried again, later or at once. */
  lemma AnswersLead(s: Nrf)
    ensures s.registering > 0 ==>
              && Leads(s, Step(s, RegisterAnswered(true)), -1, 0, 0, 0)
              && ArmsHeartbeat(s, Step(s, RegisterAnswered(true)))
              && Leads(s, Step(s, RegisterAnswered(false)), -1, 0, 0, 1)
              && SameTimers(s, Step(s, RegisterAnswered(false)))
    ensures s.updating > 0 ==>
              && Leads(s, Step(s, UpdateAnswered(true)), 0, -1, 0, 0) && ArmsHeartbeat(s, Step(s, UpdateAnswered(true)))
              && Leads(s, Step(s, UpdateAnswered(false)), 1, -1, 0, 0) && SameTimers(s, Step(s, UpdateAnswered(false)))
    ensures s.deregistering > 0 ==>
              && Leads(s, Step(s, DeregisterAnswered(true)), 0, 0, -1, 0)
              && Step(s, DeregisterAnswered(true)).heartbeats == s.heartbeats - {s.heartbeat}
              && Leads(s, Step(s, DeregisterAnswered(false)), 0, 0, -1, 0)
              && SameTimers(s, Step(s, DeregisterAnswered(false)))
  {
  }

  /** A retry registers, as a start and an accepted configuration may, and a heartbeat updates. */
  lemma TimersLead(s: Nrf, timer: int, accepted: bool, registration: bool)
    ensures s.retries > 0 ==> Leads(s, Step(s, RetryFires), 1, 0, 0, -1) && SameTimers(s, Step(s, RetryFires))
    ensures timer in s.heartbeats ==>
              && Leads(s, Step(s, HeartbeatFires(timer)), 0, 1, 0, 0)
              && Step(s, HeartbeatFires(timer)).heartbeats == s.heartbeats - {timer}
              && Step(s, HeartbeatFires(timer)).heartbeat == s.heartbeat
    ensures Leads(s, Step(s, Started(registration)), if registration then 1 else 0, 0, 0, 0)
    ensures Leads(s, Step(s, ConfigurationUpdated(accepted, registration)), if accepted && registration then 1 else 0,
                  0, 0, 0)
    ensures SameTimers(s, Step(s, ConfigurationUpdated(accepted, registration)))
    ensures Leads(s, Step(s, Stopped), 0, 0, 1, 0) && SameTimers(s, Step(s, Stopped))
  {
  }

  predicate EnabledThroughout(s: Nrf, es: seq<Event>)
    decreases |es|
  {
    es != [] ==> Enabled(s, es[0]) && EnabledThroughout(Step(s, es[0]), es[1..])
  }

  function Run(s: Nrf, es: seq<Event>): Nrf
    requires EnabledThroughout(s, es)
    decreases |es|
  {
    if es == [] then s else Run(Step(s, es[0]), es[1..])
  }

  // ---- What keeps the loop going ----

  function Tokens(s: Nrf): nat {
    s.registering + s.updating + s.retries + |s.heartbeats|
  }

  function Starts(e: Event): nat {
    if e == Started(true) || e == ConfigurationUpdated(true, true) then 1 else 0
  }

  /** What a successful deregistration stops: the heartbeat timer armed last, if it is still armed. */
  function Stops(s: Nrf, e: Event): nat {
    if e == DeregisterAnswered(true) && s.heartbeat in s.heartbeats then 1 else 0
  }

  predicate TimersKnown(s: Nrf) {
    forall t <- s.heartbeats :: t < s.nextTimer
  }

  lemma StepConserves(s: Nrf, e: Event)
    requires TimersKnown(s) && Enabled(s, e)
    ensures TimersKnown(Step(s, e))
    ensures Tokens(Step(s, e)) == Tokens(s) + Starts(e) - Stops(s, e)
  {
    if e == RegisterAnswered(true) || e == UpdateAnswered(true) {
      assert s.nextTimer !in s.heartbeats;
      assert |s.heartbeats + {s.nextTimer}| == |s.heartbeats| + 1;
    }
  }

  function AllStarts(es: seq<Event>): nat {
    if es == [] then 0 else Starts(es[0]) + AllStarts(es[1..])
  }

  function AllStops(s: Nrf, es: seq<Event>): nat
    requires EnabledThroughout(s, es)
    decreases |es|
  {
    if es == [] then 0 else Stops(s, es[0]) + AllStops(Step(s, es[0]), es[1..])
  }

  /**
    At any time the requests in flight and the timers armed are as many as the registrations started, at the
    start or by configuration updates, less the heartbeats that deregistrations stopped.
   */
  lemma {:induction false} RunConserves(s: Nrf, es: seq<Event>)
    requires TimersKnown(s) && EnabledThroughout(s, es)
    ensures TimersKnown(Run(s, es)) && Tokens(Run(s, es)) == Tokens(s) + AllStarts(es) - AllStops(s, es)
    decreases |es|
  {
    if es == [] {
    } else {
      StepConserves(s, es[0]);
      RunConserves(Step(s, es[0]), es[1..]);
    }
  }

  lemma {:induction false} NothingStops(s: Nrf, es: seq<Event>)
    requires EnabledThroughout(s, es) && forall e <- es :: e != DeregisterAnswered(true)
    ensures AllStops(s, es) == 0
    decreases |es|
  {
    if es == [] {
    } else {
      assert es[0] in es && forall e <- es[1..] :: e in es;
      NothingStops(Step(s, es[0]), es[1..]);
    }
  }

  /** There is a response or a timeout the loop still waits for. */
  predicate Waits(s: Nrf) {
    s.registering > 0 || s.updating > 0 || s.retries > 0 || s.heartbeats != {}
  }

  lemma WaitsForTokens(s: Nrf)
    ensures Waits(s) <==> Tokens(s) > 0
  {
  }

  /** An AMF that registers never falls silent before a deregistration succeeds, whatever the NRF answers. */
  lemma NeverSilent(es: seq<Event>)
    requires EnabledThroughout(START, es) && Started(true) in es && forall e <- es :: e != DeregisterAnswered(true)
    ensures Tokens(Run(START, es)) == AllStarts(es) && Waits(Run(START, es))
  {
    RunConserves(START, es);
    NothingStops(START, es);
    StartsCount(es);
    WaitsForTokens(Run(START, es));
  }

  lemma {:induction false} StartsCount(es: seq<Event>)
    requires Started(true) in es
    ensures AllStarts(es) > 0
  {
    if es[0] == Started(true) {
    } else {
      StartsCount(es[1..]);
    }
  }

  /** A successful deregistration silences the loop exactly when the timer it removes is all the loop waits for. */
  lemma DeregistrationSilences(s: Nrf)
    requires TimersKnown(s) && s.deregistering > 0
    ensures !Waits(Step(s, DeregisterAnswered(true))) <==>
            Tokens(s) == 0 || (Tokens(s) == 1 && s.heartbeat in s.heartbeats)
  {
    StepConserves(s, DeregisterAnswered(true));
    WaitsForTokens(Step(s, DeregisterAnswered(true)));
  }

  lemma RunOn(s: Nrf, e: Event, es: seq<Event>)
    requires Enabled(s, e)
    ensures EnabledThroughout(s, [e] + es) <==> EnabledThroughout(Step(s, e), es)
    ensures EnabledThroughout(Step(s, e), es) ==> Run(s, [e] + es) == Run(Step(s, e), es)
  {
    assert ([e] + es)[0] == e && ([e] + es)[1..] == es;
  }

  /** A registration that succeeds while there is none. */
  const REGISTERED := [Started(true), RegisterAnswered(true)]

  /** The configuration is updated, which registers again, and then the AMF stops and deregisters. */
  const UPDATED := [ConfigurationUpdated(true, true), RegisterAnswered(true), Stopped, DeregisterAnswered(true)]

  /** With one configuration update there are two heartbeats, and a deregistration that succeeds leaves one going. */
  lemma DeregistrationCanMiss()
    ensures EnabledThroughout(START, REGISTERED + UPDATED) && Waits(Run(START, REGISTERED + UPDATED))
  {
    var s1 := Step(START, Started(true));
    var s2 := Step(s1, RegisterAnswered(true));
    var s3 := Step(s2, ConfigurationUpdated(true, true));
    var s4 := Step(s3, RegisterAnswered(true));
    var s5 := Step(s4, Stopped);
    var s6 := Step(s5, DeregisterAnswered(true));
    assert 1 in s6.heartbeats;
    RunOn(s5, DeregisterAnswered(true), []);
    RunOn(s4, Stopped, [DeregisterAnswered(true)]);
    RunOn(s3, RegisterAnswered(true), [Stopped] + ([DeregisterAnswered(true)] + []));
    RunOn(s2, ConfigurationUpdated(true, true), UPDATED[1..]);
    RunOn(s1, RegisterAnswered(true), UPDATED);
    RunOn(START, Started(true), [RegisterAnswered(true)] + UPDATED);
    assert REGISTERED + UPDATED == [Started(true)] + ([RegisterAnswered(true)] + UPDATED);
    assert UPDATED == [ConfigurationUpdated(true, true)] + UPDATED[1..];
    assert UPDATED[1..] == [RegisterAnswered(true)] + [Stopped, DeregisterAnswered(true)];
    assert [Stopped] + ([DeregisterAnswered(true)] + []) == [Stopped, DeregisterAnswered(true)];
  }

  // ---- The handlers ----

  /**
    The APP task's side of the loop. Requests in flight and armed timers are those of the SBI task and the timer
    service.
   */
  class NrfClient {
    var registering: nat
    var updating: nat
    var deregistering: nat
    var retries: nat
    var heartbeats: set<int>
    var heartbeat: int
    var nextTimer: int

    function State(): Nrf
      reads this
    {
      Nrf(registering, updating, deregistering, retries, heartbeats, heartbeat, nextTimer)
    }

    /** Timer ids are handed out once, so that no armed timer has an id still to come. */
    predicate Valid()
      reads this
    {
      TimersKnown(State())
    }

    /** There is a response or a timeout to come. */
    predicate Waiting()
      reads this
    {
      Waits(State())
    }

    constructor (registration: bool)
      ensures Valid() && State() == Step(START, Started(registration)) && (Waiting() <==> registration)
    {
      registering, updating, deregistering, retries := if registration then 1 else 0, 0, 0, 0;
      heartbeats, heartbeat, nextTimer := {}, 0, 1;
    }

    method RegisterToNrf()
      requires Valid()
      modifies this
      ensures Valid() && State() == Register(old(State())) && Tokens(State()) == Tokens(old(State())) + 1
    {
      registering := registering + 1;
    }

    method SetupHeartbeat()
      requires Valid()
      modifies this
      ensures Valid() && State() == ArmHeartbeat(old(State())) && Tokens(State()) == Tokens(old(State())) + 1
    {
      assert nextTimer !in heartbeats;
      heartbeats := heartbeats + {nextTimer};
      heartbeat := nextTimer;
      nextTimer := nextTimer + 1;
    }

    method HandleRegisterResponse(created: bool)
      requires Valid() && registering > 0
      modifies this
      ensures Valid() && State() == Step(old(State()), RegisterAnswered(created))
      ensures Tokens(State()) == Tokens(old(State()))
    {
      registering := registering - 1;
      if created {
        SetupHeartbeat();
      } else {
        retries := retries + 1;
      }
    }

    method HandleUpdateResponse(noContent: bool)
      requires Valid() && updating > 0
      modifies this
      ensures Valid() && State() == Step(old(State()), UpdateAnswered(noContent))
      ensures Tokens(State()) == Tokens(old(State()))
    {
      updating := updating - 1;
      if noContent {
        SetupHeartbeat();
      } else {
        RegisterToNrf();
      }
    }

    method HandleDeregisterResponse(noContent: bool)
      requires Valid() && deregistering > 0
      modifies this
      ensures Valid() && State() == Step(old(State()), DeregisterAnswered(noContent))
      ensures Waiting() <==> Tokens(old(State())) > if noContent && old(heartbeat in heartbeats) then 1 else 0
    {
      StepConserves(State(), DeregisterAnswered(noContent));
      deregistering := deregistering - 1;
      if noContent {
        heartbeats := heartbeats - {heartbeat};
      }
      WaitsForTokens(State());
    }

    method HandleHeartbeatTimeout(timer: int)
      requires Valid() && timer in heartbeats
      modifies this
      ensures Valid() && State() == Step(old(State()), HeartbeatFires(timer))
      ensures Tokens(State()) == Tokens(old(State()))
    {
      heartbeats := heartbeats - {timer};
      updating := updating + 1;
    }

    method HandleRegistrationTimeout()
      requires Valid() && retries > 0
      modifies this
      ensures Valid() && State() == Step(old(State()), RetryFires)
      ensures Tokens(State()) == Tokens(old(State()))
    {
      retries := retries - 1;
      RegisterToNrf();
    }

    method HandleConfigurationUpdate(accepted: bool, registration: bool)
      requires Valid()
      modifies this
      ensures Valid() && State() == Step(old(State()), ConfigurationUpdated(accepted, registration))
    {
      if accepted && registration {
        RegisterToNrf();
      }
    }

    method Stop()
      requires Valid()
      modifies this
      ensures Valid() && State() == Step(old(State()), Stopped)
    {
      deregistering := deregistering + 1;
    }

    method Handle(e: Event)
      requires Valid() && Enabled(State(), e) && !e.Started?
      modifies this
      ensures Valid() && State() == Step(old(State()), e)
    {
      match e
      case RegisterAnswered(created) => HandleRegisterResponse(created);
      case UpdateAnswered(noContent) => HandleUpdateResponse(noContent);
      case DeregisterAnswered(noContent) => HandleDeregisterResponse(noContent);
      case RetryFires => HandleRegistrationTimeout();
      case HeartbeatFires(timer) => HandleHeartbeatTimeout(timer);
      case ConfigurationUpdated(accepted, registration) => HandleConfigurationUpdate(accepted, registration);
      case Stopped => Stop();
    }

    /**
      Whatever the NRF answers, the requests in flight and the timers armed change by the registrations started
      less the heartbeats stopped, and what waits goes on waiting until a deregistration succeeds.
     */
    method Process(es: seq<Event>)
      requires Valid() && EnabledThroughout(State(), es) && forall e <- es :: !e.Started?
      modifies this
      ensures Valid() && State() == Run(old(State()), es)
      ensures Tokens(State()) == Tokens(old(State())) + AllStarts(es) - AllStops(old(State()), es)
      ensures old(Waiting()) && DeregisterAnswered(true) !in es ==> Waiting()
    {
      ghost var s := State();
      if es != [] {
        assert es[0] in es && forall e <- es[1..] :: e in es;
        StepConserves(s, es[0]);
        Handle(es[0]);
        Process(es[1..]);
      }
      if DeregisterAnswered(true) !in es {
        NothingStops(s, es);
      }
      WaitsForTokens(s);
      WaitsForTokens(State());
    }
  }
}
