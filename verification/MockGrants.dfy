/** Who gets a token from the mock provider: when each operation answers, what a
    grant is good for, and which approval every connection goes back to. */
module MockGrants {
  import opened Prelude
  import opened MockProvider

  // ---- What a grant is good for ----

  /** The connection is the grant's, and holds its refresh token until then. */
  predicate HoldsGrant(s: State, g: Grant, refreshUntil: nat, accessUntil: nat) {
    && g.connection in s.connections
    && var c := s.connections[g.connection];
       && c.connected && c.generation == g.generation && c.secretVersion == g.secretVersion
       && c.refreshToken == Some(g.refresh) && c.refreshExpires == refreshUntil && c.accessExpires == accessUntil
  }

  /** The access token opens the chat exactly until then. */
  ghost predicate OpensUntil(s: State, access: string, until: nat) {
    forall t: nat :: Live(s, access, t) <==> t < until
  }

  /** Nothing but this connection and this access token is touched. */
  ghost predicate OnlyTouches(s: State, s': State, id: string, access: string) {
    && (forall other :: other != id ==>
          (other in s'.connections <==> other in s.connections)
          && (other in s.connections ==> s'.connections[other] == s.connections[other]))
    && (forall token :: token != access ==>
          (token in s'.access <==> token in s.access)
          && (token in s.access ==> s'.access[token] == s.access[token]))
  }

  /** The log goes on with these events, numbered from there. */
  predicate Logs(s: State, s': State, kinds: seq<Kind>) {
    && |s'.events| == |s.events| + |kinds| && s.events <= s'.events
    && forall i :: 0 <= i < |kinds| ==> s'.events[|s.events| + i] == Event(|s.events| + i + 1, kinds[i])
  }

  // ---- Devices ----

  /** Main result: a device is started for exactly the three providers, unapproved. */
  lemma StartsExactlyWhen(config: Config, s: State, provider: string, code: string, userCode: string, now: nat)
    ensures
      var (s', r) := StartDevice(config, s, provider, code, userCode, now);
      if provider == "claude" || provider == "codex" || provider == "grok" then
        r == Ok(code) && s' == s.(devices := s.devices[code := Device(userCode, false, now + config.deviceTtl)])
      else r == Err(ProviderUnknown) && s' == s
  {
  }

  /** Main result: an approval marks one device with that user code, or none. */
  lemma ApprovesExactlyWhen(s: State, userCode: string, pick: string)
    ensures
      var (s', r) := Approve(s, userCode, pick);
      && (r.Ok? <==> pick in s.devices && s.devices[pick].userCode == userCode)
      && (r.Err? ==> r.error == InvalidRequest && s' == s)
      && (r.Ok? ==> s'.devices.Keys == s.devices.Keys && s' == s.(devices := s'.devices))
      && (r.Ok? ==> forall code :: code in s.devices ==>
            s'.devices[code] == if code == pick then s.devices[code].(approved := true) else s.devices[code])
  {
  }

  /** The device may be exchanged for a connection now. */
  predicate Exchangeable(s: State, code: string, now: nat) {
    code in s.devices && now < s.devices[code].expires && s.devices[code].approved
  }

  /** Main result: a device code is exchanged exactly when it is known, not
      expired, approved, and the refresh token can be written; and which refusal
      every other case gets. It is used up once it was approved in time. */
  lemma ExchangesExactlyWhen(config: Config, s: State, code: string, now: nat, id: string, refresh: string,
                             access: string, persists: bool)
    ensures
      var (s', r) := DeviceToken(config, s, code, now, id, refresh, access, persists);
      && (r.Ok? <==> Exchangeable(s, code, now) && persists)
      && (r == Err(InvalidRequest) <==> code !in s.devices)
      && (r == Err(ExpiredToken) <==> code in s.devices && s.devices[code].expires <= now)
      && (r == Err(AuthorizationPending) <==>
            code in s.devices && now < s.devices[code].expires && !s.devices[code].approved)
      && (r == Err(RefreshPersistFailed) <==> Exchangeable(s, code, now) && !persists)
      && s'.devices == (if Exchangeable(s, code, now) then s.devices - {code} else s.devices)
      && (r.Err? ==> s' == s.(devices := s'.devices))
  {
  }

  /** Main result: the connection an exchange makes is of generation 1, holds the
      refresh token it answers, which was written first, and its access token opens
      the chat for as long as it says. */
  lemma ExchangeGrants(config: Config, s: State, code: string, now: nat, id: string, refresh: string, access: string)
    requires Exchangeable(s, code, now)
    ensures
      var (s', r) := DeviceToken(config, s, code, now, id, refresh, access, true);
      && r == Ok(Grant(id, 1, 0, access, refresh))
      && HoldsGrant(s', r.value, now + config.refreshTtl, now + config.accessTtl) && s'.connections[id].sessions == 0
      && OpensUntil(s', access, now + config.accessTtl) && OnlyTouches(s, s', id, access)
      && Logs(s, s', [RefreshPersisted, GenerationBumped, AccessLeaseIssued])
  {
  }

  // ---- Refresh ----

  predicate CanRefresh(s: State, id: string, presented: string, now: nat) {
    && id in s.connections && s.connections[id].connected
    && s.connections[id].refreshToken == Some(presented) && now < s.connections[id].refreshExpires
  }

  /** Main result: when a refresh goes through, and which refusal it gets if not. */
  lemma RefreshesExactlyWhen(config: Config, s: State, id: string, presented: string, now: nat, drawn: string,
                             access: string, persists: bool)
    ensures
      var (s', r) := Refresh(config, s, id, presented, now, drawn, access, persists);
      && (r.Ok? <==> CanRefresh(s, id, presented, now) && !s.failPersistOnce && persists)
      && (r == Err(ProviderNotConnected) <==> id !in s.connections || !s.connections[id].connected)
      && (r == Err(InvalidGrant) <==>
            && id in s.connections && s.connections[id].connected
            && s.connections[id].refreshToken != Some(presented))
      && (r == Err(ExpiredToken) <==>
            && id in s.connections && s.connections[id].connected
            && s.connections[id].refreshToken == Some(presented) && s.connections[id].refreshExpires <= now)
      && (r == Err(RefreshPersistFailed) <==>
            CanRefresh(s, id, presented, now) && (s.failPersistOnce || !persists))
      && (r.Err? ==> s' == s.(failPersistOnce := s.failPersistOnce && r.error != RefreshPersistFailed))
  {
  }

  /** Main result: a refresh keeps the generation and its sessions, counts one
      rotation, and answers the refresh token the connection then holds. */
  lemma RefreshGrants(config: Config, s: State, id: string, presented: string, now: nat, drawn: string, access: string)
    requires CanRefresh(s, id, presented, now) && !s.failPersistOnce
    ensures
      var (s', r) := Refresh(config, s, id, presented, now, drawn, access, true);
      var c := s.connections[id];
      && r == Ok(Grant(id, c.generation, c.secretVersion + 1, access, if config.rotate then drawn else presented))
      && HoldsGrant(s', r.value, now + config.refreshTtl, now + config.accessTtl)
      && s'.connections[id].sessions == c.sessions && s'.devices == s.devices
      && OpensUntil(s', access, now + config.accessTtl) && OnlyTouches(s, s', id, access)
      && Logs(s, s', [RefreshPersisted, AccessLeaseIssued])
  {
  }

  // ---- Replace, disconnect ----

  /** Main result: when a credential is replaced, and which refusal it gets if not. */
  lemma ReplacesExactlyWhen(config: Config, s: State, id: string, now: nat, refresh: string, access: string,
                            persists: bool)
    ensures
      var (s', r) := Replace(config, s, id, now, refresh, access, persists);
      var stands := id in s.connections && s.connections[id].connected;
      && (r.Ok? <==> stands && persists)
      && (r.Err? ==> s' == s && r.error == if stands then RefreshPersistFailed else ProviderNotConnected)
  {
  }

  /** Main result: a replacement begins a new generation without sessions, and
      answers the refresh token the connection then holds. */
  lemma ReplaceGrants(config: Config, s: State, id: string, now: nat, refresh: string, access: string)
    requires id in s.connections && s.connections[id].connected
    ensures
      var (s', r) := Replace(config, s, id, now, refresh, access, true);
      && r == Ok(Grant(id, s.connections[id].generation + 1, 0, access, refresh))
      && HoldsGrant(s', r.value, now + config.refreshTtl, now + config.accessTtl)
      && s'.connections[id].sessions == 0 && s'.devices == s.devices
      && OpensUntil(s', access, now + config.accessTtl) && OnlyTouches(s, s', id, access)
      && Logs(s, s', [RefreshPersisted, GenerationBumped, AccessLeaseIssued])
  {
  }

  /** Main result: a disconnect ends the connection, its refresh token and its
      sessions, once, and answers the generation it then has. */
  lemma DisconnectEnds(s: State, id: string)
    ensures
      var (s', r) := Disconnect(s, id);
      && (r.Err? <==> id !in s.connections) && (r.Err? ==> r.error == ProviderNotConnected && s' == s)
      && (r.Ok? ==>
            && id in s'.connections && r.value == s'.connections[id].generation && !s'.connections[id].connected
            && if !s.connections[id].connected then s' == s
               else
                 && s'.connections[id].generation == s.connections[id].generation + 1
                 && s'.connections[id].refreshToken.None? && s'.connections[id].sessions == 0
                 && Logs(s, s', [GenerationBumped]) && s'.access == s.access
                 && OnlyTouches(s, s', id, ""))
  {
  }

  // ---- Leases ----

  /** Main result: a session is leased exactly on a standing connection, of the
      generation it has, while its access window is open. Every use of another
      generation is counted, whatever the answer. */
  lemma LeasesExactlyWhen(s: State, id: string, generation: nat, now: nat, access: string)
    ensures
      var (s', r) := LeaseSession(s, id, generation, now, access);
      var stands := id in s.connections && s.connections[id].connected;
      && (r.Ok? <==> stands && s.connections[id].generation == generation && now < s.connections[id].accessExpires)
      && (r == Err(ProviderNotConnected) <==> !stands)
      && (r == Err(ConnectionGenerationStale) <==> stands && s.connections[id].generation != generation)
      && (r == Err(AccessExpired) <==>
            stands && s.connections[id].generation == generation && s.connections[id].accessExpires <= now)
      && s'.counters.stale == s.counters.stale +
           (if id in s.connections && s.connections[id].generation != generation then 1 else 0)
      && (r.Err? ==> s' == s.(counters := s.counters.(stale := s'.counters.stale)))
  {
  }

  /** Main result: a leased token opens the chat until the connection's access
      window closes, and one more session is counted. */
  lemma LeaseGrants(s: State, id: string, generation: nat, now: nat, access: string)
    requires LeaseSession(s, id, generation, now, access).1.Ok?
    ensures
      var (s', r) := LeaseSession(s, id, generation, now, access);
      && r == Ok(access) && OpensUntil(s', access, s.connections[id].accessExpires)
      && id in s'.connections
      && s'.connections[id] == s.connections[id].(sessions := s.connections[id].sessions + 1)
      && s'.counters.sessionsPeak == Max(s.counters.sessionsPeak, s'.connections[id].sessions)
      && OnlyTouches(s, s', id, access) && Logs(s, s', [AccessLeaseIssued])
  {
  }

  /** Main result: each attempt at the chat is counted once, under its answer, and
      changes nothing else. */
  lemma ChatCounts(s: State, header: Option<string>, now: nat)
    ensures
      var (s', r) := Chat(s, header, now);
      && (r.Ok? <==> exists token :: header == Some("Bearer " + token) && Live(s, token, now))
      && s' == s.(counters := s'.counters)
      && s'.counters == s.counters.(chatAuthorized := s'.counters.chatAuthorized,
                                    chatRejected := s'.counters.chatRejected)
      && s'.counters.chatAuthorized == s.counters.chatAuthorized + (if r.Ok? then 1 else 0)
      && s'.counters.chatRejected == s.counters.chatRejected + (if r.Ok? then 0 else 1)
  {
    if header.Some? && BEARER <= header.value {
      assert header.value == "Bearer " + header.value[|BEARER|..];
    }
    if token :| header == Some("Bearer " + token) && Live(s, token, now) {
      assert header.value[|BEARER|..] == token;
    }
  }

  // ---- Every connection was approved ----

  /** Step `b` starts the code. */
  predicate StartsAt(steps: seq<Step>, b: nat, code: string) {
    b < |steps| && steps[b].DoStart? && steps[b].code == code
    && steps[b].provider in {"claude", "codex", "grok"}
  }

  /** Step `a` approves the device that step `b` started. */
  predicate ApprovesAt(steps: seq<Step>, a: nat, b: nat, code: string) {
    && b < a < |steps| && StartsAt(steps, b, code)
    && steps[a].DoApprove? && steps[a].pick == code && steps[a].userCode == steps[b].userCode
  }

  predicate NoneStarts(steps: seq<Step>, b: nat, n: nat, code: string) {
    n <= |steps| && forall m: nat :: b < m < n ==> !StartsAt(steps, m, code)
  }

  /** Where the device stands: started at `b`, approved, if it is, at some later step. */
  ghost predicate Traced(config: Config, steps: seq<Step>, n: nat, code: string, d: Device, b: nat) {
    && b < n && StartsAt(steps, b, code) && NoneStarts(steps, b, n, code)
    && d.userCode == steps[b].userCode && d.expires == steps[b].now + config.deviceTtl
    && (d.approved ==> exists a: nat :: a < n && ApprovesAt(steps, a, b, code))
  }

  /** What a step does to one device. */
  lemma DeviceStep(config: Config, s: State, step: Step, code: string)
    ensures
      var s' := Next(config, s, step);
      code in s'.devices ==>
      || (step.DoStart? && step.code == code && step.provider in {"claude", "codex", "grok"}
          && s'.devices[code] == Device(step.userCode, false, step.now + config.deviceTtl))
      || (code in s.devices && s'.devices[code] == s.devices[code]
          && !(step.DoStart? && step.code == code && step.provider in {"claude", "codex", "grok"}))
      || (code in s.devices && step.DoApprove? && step.pick == code && step.userCode == s.devices[code].userCode
          && s'.devices[code] == s.devices[code].(approved := true))
  {
  }

  lemma {:induction false} DeviceTraced(config: Config, failOnce: bool, steps: seq<Step>, n: nat, code: string)
    returns (b: nat)
    requires n <= |steps| && code in After(config, Start(failOnce), steps[..n]).devices
    ensures Traced(config, steps, n, code, After(config, Start(failOnce), steps[..n]).devices[code], b)
  {
    var start := Start(failOnce);
    assert n > 0;
    Unroll(config, start, steps, n);
    var s, step := After(config, start, steps[..n - 1]), steps[n - 1];
    DeviceStep(config, s, step, code);
    if StartsAt(steps, n - 1, code) {
      b := n - 1;
    } else {
      b := DeviceTraced(config, failOnce, steps, n - 1, code);
      TracedNext(config, steps, n, code, s.devices[code], Next(config, s, step).devices[code], b);
    }
  }

  lemma TracedNext(config: Config, steps: seq<Step>, n: nat, code: string, d: Device, d': Device, b: nat)
    requires 0 < n <= |steps| && Traced(config, steps, n - 1, code, d, b) && !StartsAt(steps, n - 1, code)
    requires d' == d || (steps[n - 1].DoApprove? && steps[n - 1].pick == code && steps[n - 1].userCode == d.userCode
                         && d' == d.(approved := true))
    ensures Traced(config, steps, n, code, d', b)
  {
    if d' != d {
      assert ApprovesAt(steps, n - 1, b, code);
    }
  }

  /** Step `k` exchanges the code for this connection. */
  predicate ExchangesAt(config: Config, start: State, steps: seq<Step>, k: nat, code: string, id: string) {
    && k < |steps| && steps[k].DoDeviceToken? && steps[k].code == code && steps[k].id == id && steps[k].persists
    && Exchangeable(After(config, start, steps[..k]), code, steps[k].now)
  }

  lemma ConnectionsAppear(config: Config, s: State, step: Step, id: string)
    requires id in Next(config, s, step).connections && id !in s.connections
    ensures step.DoDeviceToken? && step.id == id && step.persists && Exchangeable(s, step.code, step.now)
  {
  }

  /** Main result: in every run, each connection comes from the exchange of a code
      that was started for a known provider, then approved by its user code, and
      not started again since, before it expired. */
  lemma {:induction false} EveryConnectionWasApproved(config: Config, failOnce: bool, steps: seq<Step>, id: string)
    returns (b: nat, a: nat, k: nat)
    requires id in After(config, Start(failOnce), steps).connections
    ensures k < |steps| && steps[k].DoDeviceToken?
    ensures ExchangesAt(config, Start(failOnce), steps, k, steps[k].code, id)
    ensures b < a < k && ApprovesAt(steps, a, b, steps[k].code) && NoneStarts(steps, b, k, steps[k].code)
    ensures steps[k].now < steps[b].now + config.deviceTtl
  {
    var n, start := |steps| - 1, Start(failOnce);
    var s := After(config, start, steps[..n]);
    if id in s.connections {
      b, a, k := EveryConnectionWasApproved(config, failOnce, steps[..n], id);
      assert steps[..n][..k] == steps[..k];
      assert ApprovesAt(steps, a, b, steps[k].code);
      forall m: nat | b < m < k ensures !StartsAt(steps, m, steps[k].code) {
        assert !StartsAt(steps[..n], m, steps[k].code);
      }
    } else {
      k := n;
      ConnectionsAppear(config, s, steps[n], id);
      b := DeviceTraced(config, failOnce, steps, n, steps[n].code);
      a :| a < n && ApprovesAt(steps, a, b, steps[n].code);
    }
  }

  // ---- A start yields one connection ----

  lemma GoneStays(config: Config, s: State, step: Step, code: string)
    requires code !in s.devices && !(step.DoStart? && step.code == code && step.provider in {"claude", "codex", "grok"})
    ensures code !in Next(config, s, step).devices
  {
  }

  lemma GoneUntil(config: Config, start: State, steps: seq<Step>, k: nat, j: nat, code: string)
    requires k < j <= |steps| && NoneStarts(steps, k, j, code)
    requires code !in After(config, start, steps[..k + 1]).devices
    ensures code !in After(config, start, steps[..j]).devices
  {
    var n := k + 1;
    while n < j
      invariant k < n <= j && code !in After(config, start, steps[..n]).devices
    {
      assert !StartsAt(steps, n, code);
      GoneStays(config, After(config, start, steps[..n]), steps[n], code);
      Unroll(config, start, steps, n + 1);
      n := n + 1;
    }
  }

  /** Main result: two exchanges of one code have a new start of it in between. */
  lemma OneConnectionPerStart(config: Config, start: State, steps: seq<Step>, k: nat, j: nat, code: string, one: string,
                              two: string)
    requires k < j && ExchangesAt(config, start, steps, k, code, one) && ExchangesAt(config, start, steps, j, code, two)
    ensures !NoneStarts(steps, k, j, code)
  {
    if NoneStarts(steps, k, j, code) {
      Unroll(config, start, steps, k + 1);
      GoneUntil(config, start, steps, k, j, code);
    }
  }

  // ---- What is counted ----

  /** How many steps of the run are attempts at the chat. */
  function Attempts(steps: seq<Step>): nat {
    if steps == [] then 0 else Attempts(steps[..|steps| - 1]) + if steps[|steps| - 1].DoChat? then 1 else 0
  }

  /** The step asks a known connection for a session of another generation. */
  predicate IsStale(s: State, step: Step) {
    step.DoLease? && step.id in s.connections && s.connections[step.id].generation != step.generation
  }

  function StaleUses(config: Config, start: State, steps: seq<Step>): nat {
    if steps == [] then 0
    else
      var init := steps[..|steps| - 1];
      StaleUses(config, start, init) + if IsStale(After(config, start, init), steps[|steps| - 1]) then 1 else 0
  }

  /** The counters of the chat and of stale uses are as they were. */
  predicate SameCounts(s: State, s': State) {
    && s'.counters.chatAuthorized == s.counters.chatAuthorized && s'.counters.chatRejected == s.counters.chatRejected
    && s'.counters.stale == s.counters.stale
  }

  lemma OthersCountNothing(config: Config, s: State, step: Step)
    requires !step.DoChat? && !step.DoLease?
    ensures SameCounts(s, Next(config, s, step))
  {
  }

  lemma CountsStep(config: Config, s: State, step: Step)
    ensures
      var n, n' := s.counters, Next(config, s, step).counters;
      && n'.chatAuthorized + n'.chatRejected == n.chatAuthorized + n.chatRejected + (if step.DoChat? then 1 else 0)
      && n'.chatAuthorized >= n.chatAuthorized && n'.chatRejected >= n.chatRejected
      && n'.stale == n.stale + (if IsStale(s, step) then 1 else 0)
  {
    if !step.DoChat? && !step.DoLease? {
      OthersCountNothing(config, s, step);
    }
  }

  /** Main result: in every run the chat counters add up to the attempts, and the
      stale counter to the uses of another generation. */
  lemma {:induction false} AttemptsAddUp(config: Config, failOnce: bool, steps: seq<Step>)
    ensures
      var n := After(config, Start(failOnce), steps).counters;
      && n.chatAuthorized + n.chatRejected == Attempts(steps)
      && n.stale == StaleUses(config, Start(failOnce), steps)
  {
    if steps != [] {
      var k := |steps| - 1;
      AttemptsAddUp(config, failOnce, steps[..k]);
      CountsStep(config, After(config, Start(failOnce), steps[..k]), steps[k]);
    }
  }

  /** That many sessions of one connection run at once. */
  predicate Runs(s: State, sessions: nat) {
    exists id :: id in s.connections && s.connections[id].sessions == sessions
  }

  predicate NoneAbove(s: State) {
    forall id :: id in s.connections ==> s.connections[id].sessions <= s.counters.sessionsPeak
  }

  lemma LeasePeaks(config: Config, s: State, step: Step)
    requires NoneAbove(s) && step.DoLease?
    ensures
      var s' := Next(config, s, step);
      && NoneAbove(s')
      && (s'.counters.sessionsPeak == s.counters.sessionsPeak || Runs(s', s'.counters.sessionsPeak))
  {
    var s' := Next(config, s, step);
    if s'.counters.sessionsPeak != s.counters.sessionsPeak {
      assert s'.connections[step.id].sessions == s'.counters.sessionsPeak;
    }
  }

  lemma OthersPeakNothing(config: Config, s: State, step: Step)
    requires NoneAbove(s) && !step.DoLease?
    ensures
      var s' := Next(config, s, step);
      NoneAbove(s') && s'.counters.sessionsPeak == s.counters.sessionsPeak
  {
  }

  lemma PeakStep(config: Config, s: State, step: Step)
    requires NoneAbove(s)
    ensures
      var s' := Next(config, s, step);
      && NoneAbove(s')
      && (s'.counters.sessionsPeak == s.counters.sessionsPeak || Runs(s', s'.counters.sessionsPeak))
  {
    if step.DoLease? {
      LeasePeaks(config, s, step);
    } else {
      OthersPeakNothing(config, s, step);
    }
  }

  /** Main result: in every run the peak is the most sessions any connection ever
      had at once: none has more, and some connection had that many. */
  lemma {:induction false} PeakIsReached(config: Config, failOnce: bool, steps: seq<Step>) returns (k: nat)
    ensures k <= |steps|
    ensures
      var s := After(config, Start(failOnce), steps);
      && NoneAbove(s)
      && (s.counters.sessionsPeak == 0
          || Runs(After(config, Start(failOnce), steps[..k]), s.counters.sessionsPeak))
  {
    k := 0;
    if steps != [] {
      var n := |steps| - 1;
      var s := After(config, Start(failOnce), steps[..n]);
      k := PeakIsReached(config, failOnce, steps[..n]);
      assert steps[..n][..k] == steps[..k] && steps[..|steps|] == steps;
      PeakStep(config, s, steps[n]);
      if Next(config, s, steps[n]).counters.sessionsPeak != s.counters.sessionsPeak {
        k := |steps|;
      }
    }
  }
}
