/** The mock OAuth provider: device grants, connections with generations, rotating
    refresh tokens, access leases, counters and an event log. Each operation is
    one step; the clock, the random names it draws and whether a write to the
    state file succeeds come in as parameters. Times are in nanoseconds. */
module MockProvider {
  import opened Prelude

  datatype Config = Config(accessTtl: nat, refreshTtl: nat, deviceTtl: nat, rotate: bool)

  datatype Refusal =
    | ProviderUnknown
    | AuthorizationPending
    | ExpiredToken
    | InvalidRequest
    | InvalidGrant
    | ProviderNotConnected
    | ConnectionGenerationStale
    | RefreshPersistFailed
    | AccessExpired
    | Unauthorized

  datatype Kind = RefreshPersisted | AccessLeaseIssued | GenerationBumped

  datatype Event = Event(number: nat, kind: Kind)

  datatype Counters = Counters(
    connections: nat, sessionsPeak: nat, refreshes: nat, leases: nat, refreshBeforeLease: nat, stale: nat,
    chatAuthorized: nat, chatRejected: nat)

  datatype Device = Device(userCode: string, approved: bool, expires: nat)

  datatype Connection = Connection(
    connected: bool, generation: nat, secretVersion: nat, refreshToken: Option<string>,
    refreshExpires: nat, accessExpires: nat, sessions: nat)

  datatype Access = Access(connection: string, generation: nat, expires: nat)

  datatype Grant = Grant(connection: string, generation: nat, secretVersion: nat, access: string, refresh: string)

  /** `issued` is every refresh token handed out so far; it records, and decides nothing. */
  datatype State = State(
    devices: map<string, Device>, connections: map<string, Connection>, access: map<string, Access>,
    counters: Counters, events: seq<Event>, failPersistOnce: bool, issued: set<string>)

  function Start(failPersistOnce: bool): State {
    State(map[], map[], map[], Counters(0, 0, 0, 0, 0, 0, 0, 0), [], failPersistOnce, {})
  }

  /** `Inner::event`. */
  function Noted(events: seq<Event>, kind: Kind): seq<Event> {
    events + [Event(|events| + 1, kind)]
  }

  function Logged(s: State, kind: Kind): State {
    s.(events := Noted(s.events, kind))
  }

  /** `mint_access`. */
  function Minted(s: State, token: string, connection: string, generation: nat, expires: nat): State {
    Logged(s.(access := s.access[token := Access(connection, generation, expires)],
              counters := s.counters.(leases := s.counters.leases + 1)), AccessLeaseIssued)
  }

  // ---- Operations ----

  function StartDevice(config: Config, s: State, provider: string, code: string, userCode: string, now: nat)
    : (State, Result<string, Refusal>)
  {
    if provider !in {"claude", "codex", "grok"} then (s, Err(ProviderUnknown))
    else (s.(devices := s.devices[code := Device(userCode, false, now + config.deviceTtl)]), Ok(code))
  }

  /** Approves a device with that user code; `pick` is the one the map yields first. */
  function Approve(s: State, userCode: string, pick: string): (State, Result<(), Refusal>) {
    if pick in s.devices && s.devices[pick].userCode == userCode
    then (s.(devices := s.devices[pick := s.devices[pick].(approved := true)]), Ok(()))
    else (s, Err(InvalidRequest))
  }

  /** The first approved poll makes a connection; its device code is used up even
      when the refresh token cannot be written. */
  function DeviceToken(config: Config, s: State, code: string, now: nat, id: string, refresh: string, access: string,
                       persists: bool)
    : (State, Result<Grant, Refusal>)
  {
    if code !in s.devices then (s, Err(InvalidRequest))
    else if s.devices[code].expires <= now then (s, Err(ExpiredToken))
    else if !s.devices[code].approved then (s, Err(AuthorizationPending))
    else
      var used := s.(devices := s.devices - {code});
      if !persists then (used, Err(RefreshPersistFailed))
      else (Connected(config, used, now, id, refresh, access), Ok(Grant(id, 1, 0, access, refresh)))
  }

  function Connected(config: Config, s: State, now: nat, id: string, refresh: string, access: string): State {
    var connection := Connection(true, 1, 0, Some(refresh), now + config.refreshTtl, now + config.accessTtl, 0);
    var logged := Logged(Logged(s, RefreshPersisted), GenerationBumped);
    var added := logged.(connections := s.connections[id := connection],
                         counters := s.counters.(connections := s.counters.connections + 1),
                         issued := s.issued + {refresh});
    Minted(added, access, id, 1, now + config.accessTtl)
  }

  function Refresh(config: Config, s: State, id: string, presented: string, now: nat, drawn: string, access: string,
                   persists: bool)
    : (State, Result<Grant, Refusal>)
  {
    if id !in s.connections || !s.connections[id].connected then (s, Err(ProviderNotConnected))
    else if s.connections[id].refreshToken != Some(presented) then (s, Err(InvalidGrant))
    else if s.connections[id].refreshExpires <= now then (s, Err(ExpiredToken))
    else if s.failPersistOnce || !persists then (s.(failPersistOnce := false), Err(RefreshPersistFailed))
    else
      var rotated := if config.rotate then drawn else presented;
      var c := s.connections[id];
      (Refreshed(config, s, id, now, rotated, access),
       Ok(Grant(id, c.generation, c.secretVersion + 1, access, rotated)))
  }

  function Refreshed(config: Config, s: State, id: string, now: nat, rotated: string, access: string): State
    requires id in s.connections
  {
    var c := s.connections[id];
    var c' := c.(refreshToken := Some(rotated), secretVersion := c.secretVersion + 1,
                 refreshExpires := now + config.refreshTtl, accessExpires := now + config.accessTtl);
    var n := s.counters;
    var kept := Logged(s, RefreshPersisted).(
      connections := s.connections[id := c'], issued := s.issued + {rotated},
      counters := n.(refreshes := n.refreshes + 1, refreshBeforeLease := n.refreshBeforeLease + 1));
    Minted(kept, access, id, c.generation, now + config.accessTtl)
  }

  function LeaseSession(s: State, id: string, generation: nat, now: nat, access: string)
    : (State, Result<string, Refusal>)
  {
    if id !in s.connections then (s, Err(ProviderNotConnected))
    else
      var c, n := s.connections[id], s.counters;
      var seen := if c.generation != generation then s.(counters := n.(stale := n.stale + 1)) else s;
      if !c.connected then (seen, Err(ProviderNotConnected))
      else if c.generation != generation then (seen, Err(ConnectionGenerationStale))
      else if c.accessExpires <= now then (s, Err(AccessExpired))
      else (Leased(s, id, access), Ok(access))
  }

  function Leased(s: State, id: string, access: string): State
    requires id in s.connections
  {
    var c, n := s.connections[id], s.counters;
    var started := s.(connections := s.connections[id := c.(sessions := c.sessions + 1)],
                     counters := n.(sessionsPeak := Max(n.sessionsPeak, c.sessions + 1)));
    Minted(started, access, id, c.generation, c.accessExpires)
  }

  function Replace(config: Config, s: State, id: string, now: nat, refresh: string, access: string, persists: bool)
    : (State, Result<Grant, Refusal>)
  {
    if id !in s.connections || !s.connections[id].connected then (s, Err(ProviderNotConnected))
    else if !persists then (s, Err(RefreshPersistFailed))
    else (Replaced(config, s, id, now, refresh, access),
          Ok(Grant(id, s.connections[id].generation + 1, 0, access, refresh)))
  }

  function Replaced(config: Config, s: State, id: string, now: nat, refresh: string, access: string): State
    requires id in s.connections
  {
    var c := s.connections[id];
    var c' := c.(refreshToken := Some(refresh), generation := c.generation + 1, secretVersion := 0, sessions := 0,
                 refreshExpires := now + config.refreshTtl, accessExpires := now + config.accessTtl);
    var kept := Logged(Logged(s, RefreshPersisted), GenerationBumped).(
      connections := s.connections[id := c'], issued := s.issued + {refresh});
    Minted(kept, access, id, c'.generation, now + config.accessTtl)
  }

  function Disconnect(s: State, id: string): (State, Result<nat, Refusal>) {
    if id !in s.connections then (s, Err(ProviderNotConnected))
    else
      var c := s.connections[id];
      if !c.connected then (s, Ok(c.generation))
      else (Disconnected(s, id), Ok(c.generation + 1))
  }

  function Disconnected(s: State, id: string): State
    requires id in s.connections
  {
    var c := s.connections[id];
    var c' := c.(connected := false, generation := c.generation + 1, refreshToken := None, sessions := 0);
    Logged(s.(connections := s.connections[id := c']), GenerationBumped)
  }

  /** The token opens the chat endpoints now. */
  predicate Live(s: State, token: string, now: nat) {
    && token in s.access && now < s.access[token].expires
    && s.access[token].connection in s.connections
    && s.connections[s.access[token].connection].connected
    && s.connections[s.access[token].connection].generation == s.access[token].generation
  }

  const BEARER := "Bearer "

  /** Exactly a live token opens the chat; only an unexpired token of a connection
      that is not there is turned away as not connected. */
  function CheckBearer(s: State, header: Option<string>, now: nat): (r: Result<(), Refusal>)
    ensures r.Ok? <==> header.Some? && BEARER <= header.value && Live(s, header.value[|BEARER|..], now)
    ensures r.Err? ==> r.error == Unauthorized || r.error == ProviderNotConnected
    ensures r == Err(ProviderNotConnected) <==>
              && header.Some? && BEARER <= header.value && header.value[|BEARER|..] in s.access
              && now < s.access[header.value[|BEARER|..]].expires
              && s.access[header.value[|BEARER|..]].connection !in s.connections
  {
    if header.None? || !(BEARER <= header.value) || header.value[|BEARER|..] !in s.access then Err(Unauthorized)
    else
      var token := s.access[header.value[|BEARER|..]];
      if token.expires <= now then Err(Unauthorized)
      else if token.connection !in s.connections then Err(ProviderNotConnected)
      else
        var c := s.connections[token.connection];
        if c.connected && c.generation == token.generation then Ok(()) else Err(Unauthorized)
  }

  /** The chat's answer, and the state with the attempt counted under it. */
  function Chat(s: State, header: Option<string>, now: nat): (State, Result<(), Refusal>) {
    var n, r := s.counters, CheckBearer(s, header, now);
    (s.(counters := if r.Ok? then n.(chatAuthorized := n.chatAuthorized + 1)
                    else n.(chatRejected := n.chatRejected + 1)), r)
  }

  // ---- Runs ----

  datatype Step =
    | DoStart(provider: string, code: string, userCode: string, now: nat)
    | DoApprove(userCode: string, pick: string)
    | DoDeviceToken(code: string, now: nat, id: string, refresh: string, access: string, persists: bool)
    | DoRefresh(id: string, presented: string, now: nat, refresh: string, access: string, persists: bool)
    | DoLease(id: string, generation: nat, now: nat, access: string)
    | DoReplace(id: string, now: nat, refresh: string, access: string, persists: bool)
    | DoDisconnect(id: string)
    | DoChat(header: Option<string>, now: nat)

  function Next(config: Config, s: State, step: Step): State {
    match step
    case DoStart(provider, code, userCode, now) => StartDevice(config, s, provider, code, userCode, now).0
    case DoApprove(userCode, pick) => Approve(s, userCode, pick).0
    case DoDeviceToken(code, now, id, refresh, access, persists) =>
      DeviceToken(config, s, code, now, id, refresh, access, persists).0
    case DoRefresh(id, presented, now, refresh, access, persists) =>
      Refresh(config, s, id, presented, now, refresh, access, persists).0
    case DoLease(id, generation, now, access) => LeaseSession(s, id, generation, now, access).0
    case DoReplace(id, now, refresh, access, persists) => Replace(config, s, id, now, refresh, access, persists).0
    case DoDisconnect(id) => Disconnect(s, id).0
    case DoChat(header, now) => Chat(s, header, now).0
  }

  /** The names a step draws were never drawn before. */
  predicate Fresh(s: State, step: Step) {
    && (step.DoDeviceToken? ==> step.id !in s.connections)
    && (step.DoDeviceToken? || step.DoRefresh? || step.DoReplace? ==> step.refresh !in s.issued)
    && (step.DoDeviceToken? || step.DoRefresh? || step.DoReplace? || step.DoLease? ==> step.access !in s.access)
  }

  function After(config: Config, start: State, steps: seq<Step>): State {
    if steps == [] then start else Next(config, After(config, start, steps[..|steps| - 1]), steps[|steps| - 1])
  }

  predicate AlwaysFresh(config: Config, start: State, steps: seq<Step>) {
    forall k :: 0 <= k < |steps| ==> Fresh(After(config, start, steps[..k]), steps[k])
  }

  lemma Unroll(config: Config, start: State, steps: seq<Step>, n: nat)
    requires 0 < n <= |steps|
    ensures After(config, start, steps[..n]) == Next(config, After(config, start, steps[..n - 1]), steps[n - 1])
  {
    assert steps[..n][..n - 1] == steps[..n - 1];
  }

  lemma FreshPrefix(config: Config, start: State, steps: seq<Step>, n: nat)
    requires n <= |steps| && AlwaysFresh(config, start, steps)
    ensures AlwaysFresh(config, start, steps[..n])
  {
    forall k | 0 <= k < n
      ensures Fresh(After(config, start, steps[..n][..k]), steps[..n][k])
    {
      assert steps[..n][..k] == steps[..k];
    }
  }
}
