/**
 The blocking wrapper's shared event loop: one cached provider for the process, counted
 by the ports that hold it.

 Threads open and close ports concurrently; each step below is one section that runs
 under a lock or without touching shared state. A provider counts its leases: the first
 starts the event-loop thread, the last one back stops it. A provider whose start failed
 is documented to be dead for good; `Enter` says whether it is.
*/
module Portal {
  import opened Types

  datatype Life = Idle | Running | Dead

  datatype Provider = Provider(settings: int, life: Life, leases: nat)

  /** How far a thread's call of `SerialPort.open` has come. */
  datatype Stage =
    | Got(provider: nat)       // returned by _get_provider, not entered yet
    | Opening(provider: nat)   // entered, the port is being opened on the event loop
    | Failed(provider: nat)    // entering raised, not discarded yet

  datatype Port = Port(provider: nat, entered: bool, closed: bool)

  datatype Shared = Shared(
    cached: Option<nat>,
    settings: int,
    providers: seq<Provider>,
    threads: map<nat, Stage>,
    ports: map<nat, Port>)

  datatype Action =
    | Get(thread: nat)
    | Enter(thread: nat, started: bool, deadAfter: bool)
    | Discard(thread: nat)
    | OpenOk(thread: nat, port: nat)
    | OpenFailed(thread: nat)
    | CloseBegin(port: nat)
    | CloseEnd(port: nat)
    | ConfigurePortal(settings: int)

  // ---------------------------------------------------------------------
  // The steps
  // ---------------------------------------------------------------------

  function WithProvider(s: Shared, p: nat, v: Provider): Shared
    requires p < |s.providers|
  {
    Shared(s.cached, s.settings, s.providers[p := v], s.threads, s.ports)
  }

  function WithThread(s: Shared, t: nat, stage: Stage): Shared {
    Shared(s.cached, s.settings, s.providers, s.threads[t := stage], s.ports)
  }

  function WithoutThread(s: Shared, t: nat): Shared {
    Shared(s.cached, s.settings, s.providers, s.threads - {t}, s.ports)
  }

  function WithPort(s: Shared, q: nat, port: Port): Shared {
    Shared(s.cached, s.settings, s.providers, s.threads, s.ports[q := port])
  }

  /** `provider.__exit__`: an exit that was never entered raises, and changes nothing. */
  function Exited(v: Provider): Provider {
    if v.leases == 0 then v
    else Provider(v.settings, if v.leases == 1 then Idle else v.life, v.leases - 1)
  }

  /** `provider.__enter__`: only starting the event loop can fail. */
  function Entered(v: Provider, started: bool, deadAfter: bool): (Provider, bool) {
    match v.life
    case Running => (Provider(v.settings, Running, v.leases + 1), true)
    case Dead => (v, false)
    case Idle =>
      if started then (Provider(v.settings, Running, v.leases + 1), true)
      else (Provider(v.settings, if deadAfter then Dead else Idle, v.leases), false)
  }

  function GetStep(s: Shared, t: nat): Shared {
    if s.cached.Some? then WithThread(s, t, Got(s.cached.value))
    else
      var next := |s.providers|;
      Shared(Some(next), s.settings, s.providers + [Provider(s.settings, Idle, 0)],
             s.threads[t := Got(next)], s.ports)
  }

  function EnterStep(s: Shared, t: nat, p: nat, started: bool, deadAfter: bool): Shared
    requires p < |s.providers|
  {
    var (v, ok) := Entered(s.providers[p], started, deadAfter);
    WithThread(WithProvider(s, p, v), t, if ok then Opening(p) else Failed(p))
  }

  function DiscardStep(s: Shared, t: nat, p: nat): Shared {
    Shared(if s.cached == Some(p) then None else s.cached, s.settings, s.providers, s.threads - {t}, s.ports)
  }

  function OpenFailedStep(s: Shared, t: nat, p: nat): Shared
    requires p < |s.providers|
  {
    WithoutThread(WithProvider(s, p, Exited(s.providers[p])), t)
  }

  function CloseEndStep(s: Shared, q: nat, port: Port): Shared
    requires port.provider < |s.providers|
  {
    WithPort(WithProvider(s, port.provider, Exited(s.providers[port.provider])), q,
             Port(port.provider, false, port.closed))
  }

  /** The stage thread `t` is in, if it is in an open call on a provider that exists. */
  function StageOf(s: Shared, t: nat): (stage: Option<Stage>)
    ensures stage.Some? ==> stage.value.provider < |s.providers|
  {
    if t in s.threads && s.threads[t].provider < |s.providers| then Some(s.threads[t]) else None
  }

  /** An action that is not enabled leaves everything alone. */
  function Step(s: Shared, a: Action): Shared {
    match a
    case Get(t) => if t in s.threads then s else GetStep(s, t)
    case Enter(t, started, deadAfter) =>
      var stage := StageOf(s, t);
      if stage.Some? && stage.value.Got? then EnterStep(s, t, stage.value.provider, started, deadAfter) else s
    case Discard(t) =>
      var stage := StageOf(s, t);
      if stage.Some? && stage.value.Failed? then DiscardStep(s, t, stage.value.provider) else s
    case OpenOk(t, q) =>
      var stage := StageOf(s, t);
      if stage.Some? && stage.value.Opening? && q !in s.ports
      then WithPort(WithoutThread(s, t), q, Port(stage.value.provider, true, false)) else s
    case OpenFailed(t) =>
      var stage := StageOf(s, t);
      if stage.Some? && stage.value.Opening? then OpenFailedStep(s, t, stage.value.provider) else s
    case CloseBegin(q) =>
      if q in s.ports && !s.ports[q].closed
      then WithPort(s, q, Port(s.ports[q].provider, s.ports[q].entered, true)) else s
    case CloseEnd(q) =>
      if q in s.ports && s.ports[q].closed && s.ports[q].entered && s.ports[q].provider < |s.providers|
      then CloseEndStep(s, q, s.ports[q]) else s
    case ConfigurePortal(settings) =>
      if s.cached.Some? then s else Shared(None, settings, s.providers, s.threads, s.ports)
  }

  function Run(s: Shared, actions: seq<Action>): Shared
    decreases |actions|
  {
    if actions == [] then s
    else Step(Run(s, actions[..|actions| - 1]), actions[|actions| - 1])
  }

  predicate Init(s: Shared) {
    s.cached == None && s.providers == [] && s.threads == map[] && s.ports == map[]
  }

  /** A failed start leaves the provider dead, as documented. */
  predicate AsDocumented(actions: seq<Action>) {
    forall i | 0 <= i < |actions| :: actions[i].Enter? ==> actions[i].deadAfter
  }

  // ---------------------------------------------------------------------
  // The invariant
  // ---------------------------------------------------------------------

  /** The opens in progress on provider `p`. */
  function Opens(threads: map<nat, Stage>, p: nat): set<nat> {
    set t | t in threads && threads[t] == Opening(p)
  }

  /** The ports that have not given their lease of provider `p` back. */
  function Holders(ports: map<nat, Port>, p: nat): set<nat> {
    set q | q in ports && ports[q].provider == p && ports[q].entered
  }

  /** Whatever starts fail in whatever way. */
  ghost predicate ProviderInv(s: Shared, p: nat, v: Provider) {
    && v.leases == |Opens(s.threads, p)| + |Holders(s.ports, p)|
    && (v.life.Running? <==> v.leases > 0)
    && (s.cached == Some(p) ==> v.settings == s.settings)
  }

  ghost predicate Inv(s: Shared) {
    && (forall p | 0 <= p < |s.providers| :: ProviderInv(s, p, s.providers[p]))
    && (s.cached.Some? ==> s.cached.value < |s.providers|)
    && (forall t | t in s.threads :: s.threads[t].provider < |s.providers|)
    && (forall q | q in s.ports :: PortInv(s, s.ports[q]))
  }

  ghost predicate PortInv(s: Shared, port: Port) {
    port.provider < |s.providers| && (port.entered || port.closed)
  }

  /** No thread but `except` is on its way into provider `p`, and no port holds it. */
  ghost predicate Unused(s: Shared, p: nat, except: set<nat>) {
    && (forall t | t in s.threads && t !in except :: s.threads[t].provider == p ==> s.threads[t].Failed?)
    && (forall q | q in s.ports :: s.ports[q].provider == p ==> !s.ports[q].entered)
  }

  /** A provider that is not the cached one will never run again. */
  ghost predicate Retired(s: Shared, p: nat)
    requires p < |s.providers|
  {
    s.cached != Some(p) ==> s.providers[p].life.Dead? || Unused(s, p, {})
  }

  ghost predicate RetireInv(s: Shared) {
    forall p | 0 <= p < |s.providers| :: Retired(s, p)
  }

  /** Forgetting the provider is harmless: it is dead, or nobody else has got it or holds it. */
  ghost predicate DiscardOk(s: Shared, t: nat) {
    var stage := StageOf(s, t);
    stage.Some? && stage.value.Failed? ==>
      var p := stage.value.provider;
      s.cached != Some(p) || s.providers[p].life.Dead? || Unused(s, p, {t})
  }

  /** Every discard of the run is harmless. */
  ghost predicate SafeRun(s: Shared, actions: seq<Action>) {
    forall i | 0 <= i < |actions| :: actions[i].Discard? ==> DiscardOk(Run(s, actions[..i]), actions[i].thread)
  }

  // What changing one thread or one port does to the two counts.

  lemma SetThread(threads: map<nat, Stage>, t: nat, stage: Stage, p: nat)
    ensures Opens(threads[t := stage], p) ==
            if stage == Opening(p) then Opens(threads, p) + {t} else Opens(threads, p) - {t}
  {
  }

  lemma DropThread(threads: map<nat, Stage>, t: nat, p: nat)
    ensures Opens(threads - {t}, p) == Opens(threads, p) - {t}
  {
  }

  lemma SetPort(ports: map<nat, Port>, q: nat, port: Port, p: nat)
    ensures Holders(ports[q := port], p) ==
            if port.provider == p && port.entered then Holders(ports, p) + {q} else Holders(ports, p) - {q}
  {
  }

  lemma SetClosed(ports: map<nat, Port>, q: nat, p: nat)
    requires q in ports
    ensures Holders(ports[q := Port(ports[q].provider, ports[q].entered, true)], p) == Holders(ports, p)
  {
  }

  lemma GetKeeps(s: Shared, t: nat)
    requires Inv(s) && t !in s.threads
    ensures Inv(GetStep(s, t))
  {
    var s' := GetStep(s, t);
    var stage := s'.threads[t];
    forall p | 0 <= p < |s'.providers|
      ensures ProviderInv(s', p, s'.providers[p])
    {
      SetThread(s.threads, t, stage, p);
      assert Opens(s'.threads, p) == Opens(s.threads, p);
      if p < |s.providers| {
        assert ProviderInv(s, p, s.providers[p]);
      } else {
        assert Opens(s.threads, p) == {} && Holders(s.ports, p) == {};
      }
    }
  }

  lemma EnterKeeps(s: Shared, t: nat, started: bool, deadAfter: bool)
    requires Inv(s) && t in s.threads && s.threads[t].Got?
    ensures Inv(EnterStep(s, t, s.threads[t].provider, started, deadAfter))
  {
    var s' := EnterStep(s, t, s.threads[t].provider, started, deadAfter);
    forall p | 0 <= p < |s'.providers|
      ensures ProviderInv(s', p, s'.providers[p])
    {
      assert ProviderInv(s, p, s.providers[p]);
      SetThread(s.threads, t, s'.threads[t], p);
    }
  }

  lemma DiscardKeeps(s: Shared, t: nat)
    requires Inv(s) && t in s.threads && s.threads[t].Failed?
    ensures Inv(DiscardStep(s, t, s.threads[t].provider))
  {
    var s' := DiscardStep(s, t, s.threads[t].provider);
    forall p | 0 <= p < |s'.providers|
      ensures ProviderInv(s', p, s'.providers[p])
    {
      assert ProviderInv(s, p, s.providers[p]);
      DropThread(s.threads, t, p);
      assert Opens(s'.threads, p) == Opens(s.threads, p);
    }
  }

  lemma OpenOkKeeps(s: Shared, t: nat, q: nat)
    requires Inv(s) && t in s.threads && s.threads[t].Opening? && q !in s.ports
    ensures Inv(WithPort(WithoutThread(s, t), q, Port(s.threads[t].provider, true, false)))
  {
    var port := Port(s.threads[t].provider, true, false);
    var s' := WithPort(WithoutThread(s, t), q, port);
    forall p | 0 <= p < |s'.providers|
      ensures ProviderInv(s', p, s'.providers[p])
    {
      assert ProviderInv(s, p, s.providers[p]);
      DropThread(s.threads, t, p);
      SetPort(s.ports, q, port, p);
    }
  }

  lemma OpenFailedKeeps(s: Shared, t: nat)
    requires Inv(s) && t in s.threads && s.threads[t].Opening?
    ensures Inv(OpenFailedStep(s, t, s.threads[t].provider))
  {
    var s' := OpenFailedStep(s, t, s.threads[t].provider);
    assert t in Opens(s.threads, s.threads[t].provider);
    forall p | 0 <= p < |s'.providers|
      ensures ProviderInv(s', p, s'.providers[p])
    {
      assert ProviderInv(s, p, s.providers[p]);
      DropThread(s.threads, t, p);
    }
  }

  lemma CloseBeginKeeps(s: Shared, q: nat)
    requires Inv(s) && q in s.ports
    ensures Inv(WithPort(s, q, Port(s.ports[q].provider, s.ports[q].entered, true)))
  {
    var port := Port(s.ports[q].provider, s.ports[q].entered, true);
    var s' := WithPort(s, q, port);
    forall p | 0 <= p < |s'.providers|
      ensures ProviderInv(s', p, s'.providers[p])
    {
      assert ProviderInv(s, p, s.providers[p]);
      SetClosed(s.ports, q, p);
    }
  }

  lemma CloseEndKeeps(s: Shared, q: nat)
    requires Inv(s) && q in s.ports && s.ports[q].entered && s.ports[q].closed
    ensures Inv(CloseEndStep(s, q, s.ports[q]))
  {
    var s' := CloseEndStep(s, q, s.ports[q]);
    assert q in Holders(s.ports, s.ports[q].provider);
    forall p | 0 <= p < |s'.providers|
      ensures ProviderInv(s', p, s'.providers[p])
    {
      assert ProviderInv(s, p, s.providers[p]);
      SetPort(s.ports, q, s'.ports[q], p);
    }
  }

  lemma StepKeeps(s: Shared, a: Action)
    requires Inv(s)
    ensures Inv(Step(s, a))
  {
    match a
    case Get(t) => if t !in s.threads { GetKeeps(s, t); }
    case Enter(t, started, deadAfter) =>
      if t in s.threads && s.threads[t].Got? { EnterKeeps(s, t, started, deadAfter); }
    case Discard(t) => if t in s.threads && s.threads[t].Failed? { DiscardKeeps(s, t); }
    case OpenOk(t, q) => if t in s.threads && s.threads[t].Opening? && q !in s.ports { OpenOkKeeps(s, t, q); }
    case OpenFailed(t) => if t in s.threads && s.threads[t].Opening? { OpenFailedKeeps(s, t); }
    case CloseBegin(q) => if q in s.ports { CloseBeginKeeps(s, q); }
    case CloseEnd(q) => if q in s.ports && s.ports[q].entered && s.ports[q].closed { CloseEndKeeps(s, q); }
    case ConfigurePortal(settings) =>
      if s.cached.None? {
        ConfigureKeeps(s, settings);
      }
  }

  lemma ConfigureKeeps(s: Shared, settings: int)
    requires Inv(s) && s.cached.None?
    ensures Inv(Shared(None, settings, s.providers, s.threads, s.ports))
  {
    forall p | 0 <= p < |s.providers|
      ensures ProviderInv(Shared(None, settings, s.providers, s.threads, s.ports), p, s.providers[p])
    {
      assert ProviderInv(s, p, s.providers[p]);
    }
  }

  lemma {:induction false} RunKeeps(s: Shared, actions: seq<Action>)
    requires Inv(s)
    ensures Inv(Run(s, actions))
    decreases |actions|
  {
    if actions == [] {
    } else {
      RunKeeps(s, actions[..|actions| - 1]);
      StepKeeps(Run(s, actions[..|actions| - 1]), actions[|actions| - 1]);
    }
  }

  // Providers that are not cached ---------------------------------------------

  /** A dead provider has no lease, and nothing revives it. */
  lemma DeadStays(s: Shared, a: Action, p: nat)
    requires Inv(s) && p < |s.providers| && s.providers[p].life.Dead?
    ensures p < |Step(s, a).providers| && Step(s, a).providers[p].life.Dead?
  {
    assert ProviderInv(s, p, s.providers[p]);
  }

  /** A provider that is neither cached nor used stays unused. */
  lemma UnusedStays(s: Shared, a: Action, p: nat)
    requires Inv(s) && p < |s.providers| && s.cached != Some(p) && Unused(s, p, {})
    ensures p < |Step(s, a).providers| && Step(s, a).cached != Some(p) && Unused(Step(s, a), p, {})
  {
  }

  lemma RetiredStays(s: Shared, a: Action, p: nat)
    requires Inv(s) && p < |s.providers| && Retired(s, p)
    requires a.Discard? ==> DiscardOk(s, a.thread)
    ensures p < |Step(s, a).providers| && Retired(Step(s, a), p)
  {
    if s.providers[p].life.Dead? {
      DeadStays(s, a, p);
    } else if s.cached != Some(p) {
      UnusedStays(s, a, p);
    }
  }

  lemma StepRetires(s: Shared, a: Action)
    requires Inv(s) && RetireInv(s) && (a.Discard? ==> DiscardOk(s, a.thread))
    ensures RetireInv(Step(s, a))
  {
    var s' := Step(s, a);
    forall p | 0 <= p < |s'.providers|
      ensures Retired(s', p)
    {
      if p < |s.providers| {
        RetiredStays(s, a, p);
      }
    }
  }

  lemma SafeFront(s: Shared, actions: seq<Action>)
    requires SafeRun(s, actions) && actions != []
    ensures SafeRun(s, actions[..|actions| - 1])
    ensures var n := |actions| - 1; actions[n].Discard? ==> DiscardOk(Run(s, actions[..n]), actions[n].thread)
  {
    var front := actions[..|actions| - 1];
    assert forall i | 0 <= i < |front| :: front[i] == actions[i] && front[..i] == actions[..i];
  }

  lemma {:induction false} RunRetires(s: Shared, actions: seq<Action>)
    requires Inv(s) && RetireInv(s) && SafeRun(s, actions)
    ensures RetireInv(Run(s, actions))
    decreases |actions|
  {
    if actions == [] {
    } else {
      var front := actions[..|actions| - 1];
      SafeFront(s, actions);
      RunRetires(s, front);
      RunKeeps(s, front);
      StepRetires(Run(s, front), actions[|actions| - 1]);
    }
  }

  // Documented runs are safe ---------------------------------------------------

  ghost predicate FailedIsDead(s: Shared) {
    forall t | t in s.threads && s.threads[t].Failed? ::
      s.threads[t].provider < |s.providers| && s.providers[s.threads[t].provider].life.Dead?
  }

  lemma FailedStaysDead(s: Shared, a: Action)
    requires Inv(s) && FailedIsDead(s) && (a.Enter? ==> a.deadAfter)
    ensures FailedIsDead(Step(s, a))
  {
    var s' := Step(s, a);
    forall t | t in s'.threads && s'.threads[t].Failed?
      ensures s'.threads[t].provider < |s'.providers| && s'.providers[s'.threads[t].provider].life.Dead?
    {
      if t in s.threads && s.threads[t].Failed? {
        DeadStays(s, a, s.threads[t].provider);
      }
    }
  }

  /** If every failed start is final, as documented, every discard is harmless. */
  lemma {:induction false} DocumentedIsSafe(s: Shared, actions: seq<Action>)
    requires Inv(s) && FailedIsDead(s) && AsDocumented(actions)
    ensures SafeRun(s, actions) && FailedIsDead(Run(s, actions))
    decreases |actions|
  {
    if actions == [] {
    } else {
      var n := |actions| - 1;
      var front := actions[..n];
      DocumentedIsSafe(s, front);
      RunKeeps(s, front);
      FailedStaysDead(Run(s, front), actions[n]);
      forall i | 0 <= i < |actions| && actions[i].Discard?
        ensures DiscardOk(Run(s, actions[..i]), actions[i].thread)
      {
        if i < n {
          assert front[i] == actions[i] && front[..i] == actions[..i];
        }
      }
    }
  }

  // ---------------------------------------------------------------------
  // What every run promises
  // ---------------------------------------------------------------------

  /**
   Every provider's leases are its unreleased ports and its opens in progress, and its
   event-loop thread runs exactly while there are any, however starts may fail.
  */
  lemma LeasesAreHolders(s0: Shared, actions: seq<Action>, p: nat)
    requires Init(s0) && p < |Run(s0, actions).providers|
    ensures var s := Run(s0, actions);
            && s.providers[p].leases == |Opens(s.threads, p)| + |Holders(s.ports, p)|
            && (s.providers[p].life.Running? <==> Opens(s.threads, p) != {} || Holders(s.ports, p) != {})
  {
    RunKeeps(s0, actions);
    assert ProviderInv(Run(s0, actions), p, Run(s0, actions).providers[p]);
  }

  /** Nothing runs or holds a provider but the cached one. */
  lemma OnlyCachedIsUsed(s: Shared, p: nat)
    requires Inv(s) && RetireInv(s) && p < |s.providers| && s.cached != Some(p)
    ensures !s.providers[p].life.Running? && Opens(s.threads, p) == {} && Holders(s.ports, p) == {}
  {
    assert Retired(s, p) && ProviderInv(s, p, s.providers[p]);
  }

  /** However many ports are open, there is one event-loop thread, the cached provider's. */
  lemma OneEventLoop(s0: Shared, actions: seq<Action>, p: nat)
    requires Init(s0) && SafeRun(s0, actions) && p < |Run(s0, actions).providers|
    ensures Run(s0, actions).providers[p].life.Running? ==> Run(s0, actions).cached == Some(p)
  {
    RunKeeps(s0, actions);
    RunRetires(s0, actions);
    if Run(s0, actions).cached != Some(p) {
      OnlyCachedIsUsed(Run(s0, actions), p);
    }
  }

  /** If `configure_portal` succeeds now, no port is unreleased and none is being opened. */
  ghost predicate Sound(s: Shared) {
    s.cached.None? ==>
      && (forall q | q in s.ports :: !s.ports[q].entered)
      && (forall t | t in s.threads :: !s.threads[t].Opening?)
  }

  lemma RetiredIsSound(s: Shared)
    requires Inv(s) && RetireInv(s)
    ensures Sound(s)
  {
    if s.cached.None? {
      forall q | q in s.ports
        ensures !s.ports[q].entered
      {
        assert PortInv(s, s.ports[q]);
        OnlyCachedIsUsed(s, s.ports[q].provider);
        assert q !in Holders(s.ports, s.ports[q].provider);
      }
      forall t | t in s.threads
        ensures !s.threads[t].Opening?
      {
        OnlyCachedIsUsed(s, s.threads[t].provider);
        assert t !in Opens(s.threads, s.threads[t].provider);
      }
    }
  }

  /** `configure_portal` succeeds only when no port is unreleased and none is being opened. */
  lemma ConfigureFindsNoPort(s0: Shared, actions: seq<Action>)
    requires Init(s0) && SafeRun(s0, actions)
    ensures Sound(Run(s0, actions))
  {
    RunKeeps(s0, actions);
    RunRetires(s0, actions);
    RetiredIsSound(Run(s0, actions));
  }

  /** In particular when every failed start is final. */
  lemma ConfigureFindsNoPortAsDocumented(s0: Shared, actions: seq<Action>)
    requires Init(s0) && AsDocumented(actions)
    ensures Sound(Run(s0, actions))
  {
    DocumentedIsSafe(s0, actions);
    ConfigureFindsNoPort(s0, actions);
  }

  /**
   Exactly when forgetting a provider is harmless: from then on `configure_portal` stays
   sound over every run of harmless discards if and only if the provider is dead, or
   nobody else has got it or holds it, or it is not the cached one anyway.
  */
  lemma DiscardIsHarmlessExactlyWhen(s: Shared, t: nat)
    requires Inv(s) && RetireInv(s) && t in s.threads && s.threads[t].Failed?
    ensures DiscardOk(s, t) <==>
              forall rest | SafeRun(Step(s, Discard(t)), rest) :: Sound(Run(Step(s, Discard(t)), rest))
  {
    var s' := Step(s, Discard(t));
    StepKeeps(s, Discard(t));
    if DiscardOk(s, t) {
      StepRetires(s, Discard(t));
      forall rest | SafeRun(s', rest)
        ensures Sound(Run(s', rest))
      {
        RunKeeps(s', rest);
        RunRetires(s', rest);
        RetiredIsSound(Run(s', rest));
      }
    } else {
      var rest := HarmfulRest(s, t);
    }
  }

  /** What goes wrong after a harmful discard: at once, or when the thread that has got the provider enters it. */
  lemma HarmfulRest(s: Shared, t: nat) returns (rest: seq<Action>)
    requires Inv(s) && t in s.threads && s.threads[t].Failed? && !DiscardOk(s, t)
    ensures SafeRun(Step(s, Discard(t)), rest) && !Sound(Run(Step(s, Discard(t)), rest))
  {
    var p := s.threads[t].provider;
    var s' := Step(s, Discard(t));
    rest := [];
    if u :| u in s.threads && u != t && s.threads[u].provider == p && !s.threads[u].Failed? {
      assert u in s'.threads && s'.threads[u] == s.threads[u];
      if s.threads[u].Got? {
        rest := [Enter(u, true, true)];
        assert rest[..0] == [];
        assert Run(s', rest) == Step(s', Enter(u, true, true));
        assert Run(s', rest).threads[u] == Opening(p);
      }
    } else {
      var q :| q in s.ports && s.ports[q].provider == p && s.ports[q].entered;
      assert q in s'.ports && s'.ports[q].entered;
    }
  }

  /** The argument of the last `configure_portal` call of the run that found no provider cached. */
  function LastConfigured(s0: Shared, actions: seq<Action>): int
    decreases |actions|
  {
    if actions == [] then s0.settings
    else
      var front, last := actions[..|actions| - 1], actions[|actions| - 1];
      if last.ConfigurePortal? && Run(s0, front).cached.None? then last.settings else LastConfigured(s0, front)
  }

  lemma {:induction false} SettingsAreLastConfigured(s0: Shared, actions: seq<Action>)
    ensures Run(s0, actions).settings == LastConfigured(s0, actions)
    decreases |actions|
  {
    if actions == [] {
    } else {
      SettingsAreLastConfigured(s0, actions[..|actions| - 1]);
    }
  }

  /** The event loop under every unreleased port runs with what the last successful `configure_portal` asked for. */
  lemma PortsRunAsConfigured(s0: Shared, actions: seq<Action>, q: nat)
    requires Init(s0) && SafeRun(s0, actions)
    requires q in Run(s0, actions).ports && Run(s0, actions).ports[q].entered
    ensures var s := Run(s0, actions);
            var p := s.ports[q].provider;
            p < |s.providers| && s.cached == Some(p) && s.providers[p].settings == LastConfigured(s0, actions)
            && s.providers[p].life.Running?
  {
    var s := Run(s0, actions);
    RunKeeps(s0, actions);
    RunRetires(s0, actions);
    SettingsAreLastConfigured(s0, actions);
    var p := s.ports[q].provider;
    assert PortInv(s, s.ports[q]) && q in Holders(s.ports, p);
    assert ProviderInv(s, p, s.providers[p]);
    if s.cached != Some(p) {
      OnlyCachedIsUsed(s, p);
    }
  }

  // ---------------------------------------------------------------------
  // What each section does
  // ---------------------------------------------------------------------

  /** `configure_portal` is refused exactly while a provider is cached, and otherwise its argument is stored. */
  lemma ConfigureStores(s: Shared, settings: int)
    ensures var s' := Step(s, ConfigurePortal(settings));
            && (s.cached.Some? ==> s' == s)
            && (s.cached.None? ==> s'.settings == settings && s'.cached.None?
                                   && s'.providers == s.providers && s'.threads == s.threads && s'.ports == s.ports)
  {
  }

  /** The cached provider is handed out, or a new one with the settings of the moment is cached first. */
  lemma GetGives(s: Shared, t: nat)
    requires t !in s.threads
    ensures var s' := Step(s, Get(t));
            && s'.cached.Some? && s'.threads == s.threads[t := Got(s'.cached.value)]
            && (s.cached.Some? ==> s'.cached == s.cached && s'.providers == s.providers)
            && (s.cached.None? ==> s'.cached == Some(|s.providers|)
                                   && s'.providers == s.providers + [Provider(s.settings, Idle, 0)])
  {
  }

  /** Entering takes a lease exactly when the event loop runs or can be started. */
  lemma EnterTakesALease(s: Shared, t: nat, started: bool, deadAfter: bool)
    requires t in s.threads && s.threads[t].Got? && s.threads[t].provider < |s.providers|
    ensures var p := s.threads[t].provider;
            var s' := Step(s, Enter(t, started, deadAfter));
            var ok := s.providers[p].life.Running? || (s.providers[p].life.Idle? && started);
            && t in s'.threads && p < |s'.providers|
            && (ok ==> s'.threads[t] == Opening(p) && s'.providers[p].life.Running?
                       && s'.providers[p].leases == s.providers[p].leases + 1)
            && (!ok ==> s'.threads[t] == Failed(p) && s'.providers[p].leases == s.providers[p].leases
                        && (s'.providers[p].life.Dead? <==> s.providers[p].life.Dead? || deadAfter))
            && s'.providers[p].settings == s.providers[p].settings && s'.cached == s.cached
  {
  }

  /** A provider that could not be entered is forgotten exactly if it is the cached one. */
  lemma DiscardForgets(s: Shared, t: nat)
    requires t in s.threads && s.threads[t].Failed? && s.threads[t].provider < |s.providers|
    ensures var s' := Step(s, Discard(t));
            && s'.cached == (if s.cached == Some(s.threads[t].provider) then None else s.cached)
            && s'.threads == s.threads - {t} && s'.providers == s.providers && s'.ports == s.ports
  {
  }

  /** An open that ends well leaves a port holding the lease; one that fails gives the lease back. */
  lemma OpenEnds(s: Shared, t: nat, q: nat)
    requires Inv(s) && t in s.threads && s.threads[t].Opening? && q !in s.ports
    ensures var p := s.threads[t].provider;
            var ok, failed := Step(s, OpenOk(t, q)), Step(s, OpenFailed(t));
            && ok.ports == s.ports[q := Port(p, true, false)] && ok.threads == s.threads - {t}
            && ok.providers == s.providers
            && failed.ports == s.ports && failed.threads == s.threads - {t}
            && failed.providers[p].leases == s.providers[p].leases - 1
            && (failed.providers[p].life.Running? <==> s.providers[p].leases > 1)
  {
    assert ProviderInv(s, s.threads[t].provider, s.providers[s.threads[t].provider]);
    assert t in Opens(s.threads, s.threads[t].provider);
  }

  /** Closing an open port gives its lease back, and the last one back stops the event loop. */
  lemma CloseReleases(s: Shared, q: nat)
    requires Inv(s) && q in s.ports && !s.ports[q].closed
    ensures var p := s.ports[q].provider;
            var s' := Step(Step(s, CloseBegin(q)), CloseEnd(q));
            && p < |s.providers| && p < |s'.providers|
            && s'.ports == s.ports[q := Port(p, false, true)]
            && s'.providers[p].leases == s.providers[p].leases - 1
            && (s'.providers[p].life.Running? <==> s.providers[p].leases > 1)
  {
    var p := s.ports[q].provider;
    assert PortInv(s, s.ports[q]);
    assert ProviderInv(s, p, s.providers[p]) && q in Holders(s.ports, p);
    var begun := Step(s, CloseBegin(q));
    assert begun.ports[q] == Port(p, true, true);
    var done := Step(begun, CloseEnd(q));
    assert done.ports == s.ports[q := Port(p, true, true)][q := Port(p, false, true)];
  }

  /** Closing again, any number of times, gives nothing back twice. */
  lemma CloseAgain(s: Shared, q: nat)
    ensures var once := Step(Step(s, CloseBegin(q)), CloseEnd(q));
            Step(once, CloseBegin(q)) == once && Step(once, CloseEnd(q)) == once
  {
    var begun := Step(s, CloseBegin(q));
    var once := Step(begun, CloseEnd(q));
    if q in s.ports {
      assert begun.ports[q].closed;
      assert once.ports[q].closed;
    }
  }

  /** A closed port's lease is gone for good: nothing that happens later gives it back. */
  lemma {:induction false} ReleasedForGood(s: Shared, actions: seq<Action>, q: nat)
    requires q in s.ports && s.ports[q].closed && !s.ports[q].entered
    ensures q in Run(s, actions).ports && Run(s, actions).ports[q] == s.ports[q]
    decreases |actions|
  {
    if actions == [] {
    } else {
      ReleasedForGood(s, actions[..|actions| - 1], q);
    }
  }

  /** A failed open leaves the lease count as it was before the provider was entered. */
  lemma FailedOpenReleases(s: Shared, t: nat, started: bool, deadAfter: bool)
    requires Inv(s) && t in s.threads && s.threads[t].Got?
    ensures var p := s.threads[t].provider;
            var s1 := Step(s, Enter(t, started, deadAfter));
            var s2 := Step(Step(s1, OpenFailed(t)), Discard(t));
            && s2.providers[p].leases == s.providers[p].leases
            && (s1.threads[t].Opening? ==> s2.providers == s.providers && s2.cached == s.cached)
            && t !in s2.threads && s2.ports == s.ports
  {
    assert ProviderInv(s, s.threads[t].provider, s.providers[s.threads[t].provider]);
    var p := s.threads[t].provider;
    var s1 := Step(s, Enter(t, started, deadAfter));
    if s1.threads[t].Opening? {
      assert Exited(s1.providers[p]) == s.providers[p];
      assert s1.providers[p := s.providers[p]] == s.providers;
    }
  }

  /** Without that promise: a thread that was given the provider before it was discarded can still enter it. */
  lemma IfAFailedStartWereNotFinal(s0: Shared)
    requires Init(s0)
    ensures var discarded := Step(Step(Step(Step(s0, Get(0)), Get(1)), Enter(0, false, false)), Discard(0));
            var s := Step(Step(discarded, Enter(1, true, true)), OpenOk(1, 0));
            s.cached == None && 0 in s.ports && s.ports[0].entered && !s.ports[0].closed
  {
    GivenUp(s0);
    StartedAnyway(Step(Step(Step(Step(s0, Get(0)), Get(1)), Enter(0, false, false)), Discard(0)));
  }

  lemma GivenUp(s0: Shared)
    requires Init(s0)
    ensures var s := Step(Step(Step(Step(s0, Get(0)), Get(1)), Enter(0, false, false)), Discard(0));
            s.threads == map[1 := Got(0)] && s.ports == map[] && s.cached == None
            && |s.providers| == 1 && s.providers[0].life.Idle?
  {
    var p := Provider(s0.settings, Idle, 0);
    assert Step(s0, Get(0)) == Shared(Some(0), s0.settings, [p], map[0 := Got(0)], map[]);
    var s2 := Step(Step(s0, Get(0)), Get(1));
    assert s2 == Shared(Some(0), s0.settings, [p], map[0 := Got(0), 1 := Got(0)], map[]);
    var s3 := Step(s2, Enter(0, false, false));
    assert s3 == Shared(Some(0), s0.settings, [p], map[0 := Failed(0), 1 := Got(0)], map[]);
  }

  lemma StartedAnyway(s: Shared)
    requires s.threads == map[1 := Got(0)] && s.ports == map[] && |s.providers| == 1 && s.providers[0].life.Idle?
    ensures var s' := Step(Step(s, Enter(1, true, true)), OpenOk(1, 0));
            s'.cached == s.cached && 0 in s'.ports && s'.ports[0] == Port(0, true, false)
  {
    var s1 := Step(s, Enter(1, true, true));
    assert s1.threads[1] == Opening(0);
  }

  // ---------------------------------------------------------------------
  // The module's variables, updated in place
  // ---------------------------------------------------------------------

  class SyncModule {
    var cached: Option<nat>
    var settings: int
    var providers: seq<Provider>
    var threads: map<nat, Stage>
    var ports: map<nat, Port>

    function Snapshot(): Shared
      reads this
    {
      Shared(cached, settings, providers, threads, ports)
    }

    constructor (settings: int)
      ensures Init(Snapshot()) && this.settings == settings
    {
      this.settings := settings;
      cached, providers, threads, ports := None, [], map[], map[];
    }

    method ConfigurePortalCall(newSettings: int) returns (ok: bool)
      modifies this`settings
      ensures ok == cached.None?
      ensures Snapshot() == Step(old(Snapshot()), ConfigurePortal(newSettings))
    {
      ok := cached.None?;
      if ok {
        settings := newSettings;
      }
    }

    method GetProvider(t: nat) returns (p: nat)
      requires t !in threads
      modifies this
      ensures Snapshot() == Step(old(Snapshot()), Get(t))
      ensures cached == Some(p) && threads[t] == Got(p)
    {
      if cached.None? {
        cached := Some(|providers|);
        providers := providers + [Provider(settings, Idle, 0)];
      }
      p := cached.value;
      threads := threads[t := Got(p)];
    }

    method EnterProvider(t: nat, started: bool, deadAfter: bool) returns (ok: bool)
      requires t in threads && threads[t].Got? && threads[t].provider < |providers|
      modifies this`providers, this`threads
      ensures Snapshot() == Step(old(Snapshot()), Enter(t, started, deadAfter))
      ensures ok <==> old(providers[threads[t].provider].life.Running?
                          || (providers[threads[t].provider].life.Idle? && started))
    {
      var p := threads[t].provider;
      var v := providers[p];
      ok := v.life.Running? || (v.life.Idle? && started);
      if ok {
        providers := providers[p := Provider(v.settings, Running, v.leases + 1)];
        threads := threads[t := Opening(p)];
      } else {
        if v.life.Idle? && deadAfter {
          providers := providers[p := Provider(v.settings, Dead, v.leases)];
        }
        threads := threads[t := Failed(p)];
      }
    }

    method DiscardProvider(t: nat)
      requires t in threads && threads[t].Failed? && threads[t].provider < |providers|
      modifies this`cached, this`threads
      ensures Snapshot() == Step(old(Snapshot()), Discard(t))
    {
      if cached == Some(threads[t].provider) {
        cached := None;
      }
      threads := threads - {t};
    }

    method ExitProvider(p: nat)
      requires p < |providers|
      modifies this`providers
      ensures providers == old(providers)[p := Exited(old(providers)[p])]
    {
      var v := providers[p];
      if v.leases > 0 {
        providers := providers[p := Provider(v.settings, if v.leases == 1 then Idle else v.life, v.leases - 1)];
      }
    }

    /** The portal call that opens the port returned `ok`, or raised. */
    method FinishOpen(t: nat, q: nat, ok: bool)
      requires t in threads && threads[t].Opening? && threads[t].provider < |providers| && q !in ports
      modifies this`providers, this`threads, this`ports
      ensures Snapshot() == Step(old(Snapshot()), if ok then OpenOk(t, q) else OpenFailed(t))
    {
      var p := threads[t].provider;
      if ok {
        ports := ports[q := Port(p, true, false)];
      } else {
        ExitProvider(p);
      }
      threads := threads - {t};
    }

    /** True when this call is the one that closes the port. */
    method BeginClose(q: nat) returns (mine: bool)
      requires q in ports
      modifies this`ports
      ensures mine == !old(ports)[q].closed
      ensures Snapshot() == Step(old(Snapshot()), CloseBegin(q))
    {
      mine := !ports[q].closed;
      if mine {
        ports := ports[q := Port(ports[q].provider, ports[q].entered, true)];
      }
    }

    /** The `finally` clause of `close`, whether or not `aclose` raised. */
    method ReleasePortal(q: nat)
      requires q in ports && ports[q].closed && ports[q].provider < |providers|
      modifies this`providers, this`ports
      ensures Snapshot() == Step(old(Snapshot()), CloseEnd(q))
    {
      if ports[q].entered {
        var p := ports[q].provider;
        ports := ports[q := Port(p, false, ports[q].closed)];
        ExitProvider(p);
      }
    }
  }
}
