/** The mock provider as the object it is: fields changed under locks by each
    operation, every one of them a step of the model. */
module MockState {
  import opened Prelude
  import Model = MockProvider

  class Mock {
    const config: Model.Config
    var devices: map<string, Model.Device>
    var connections: map<string, Model.Connection>
    var access: map<string, Model.Access>
    var counters: Model.Counters
    var events: seq<Model.Event>
    var failPersistOnce: bool
    ghost var issued: set<string>

    ghost function View(): Model.State
      reads this
    {
      Model.State(devices, connections, access, counters, events, failPersistOnce, issued)
    }

    constructor (config: Model.Config, failPersistOnce: bool)
      ensures this.config == config && View() == Model.Start(failPersistOnce)
    {
      this.config := config;
      devices, connections, access := map[], map[], map[];
      counters := Model.Counters(0, 0, 0, 0, 0, 0, 0, 0);
      events := [];
      this.failPersistOnce := failPersistOnce;
      issued := {};
    }

    method Note(kind: Model.Kind)
      modifies this`events
      ensures View() == Model.Logged(old(View()), kind)
    {
      events := events + [Model.Event(|events| + 1, kind)];
    }

    method MintAccess(token: string, id: string, generation: nat, expires: nat)
      modifies this`events, this`access, this`counters
      ensures View() == Model.Minted(old(View()), token, id, generation, expires)
    {
      access := access[token := Model.Access(id, generation, expires)];
      counters := counters.(leases := counters.leases + 1);
      Note(Model.AccessLeaseIssued);
    }

    method StartDevice(provider: string, code: string, userCode: string, now: nat)
      returns (r: Result<string, Model.Refusal>)
      modifies this
      ensures (View(), r) == Model.StartDevice(config, old(View()), provider, code, userCode, now)
    {
      if provider !in {"claude", "codex", "grok"} {
        return Err(Model.ProviderUnknown);
      }
      devices := devices[code := Model.Device(userCode, false, now + config.deviceTtl)];
      return Ok(code);
    }

    method Approve(userCode: string) returns (r: Result<(), Model.Refusal>, pick: string)
      modifies this
      ensures (View(), r) == Model.Approve(old(View()), userCode, pick)
      ensures r.Ok? <==> exists code :: code in old(devices) && old(devices)[code].userCode == userCode
    {
      var matching := set code | code in devices && devices[code].userCode == userCode;
      if matching == {} {
        pick := "";
        assert forall code :: code in devices && devices[code].userCode == userCode ==> code in matching;
        return Err(Model.InvalidRequest), "";
      }
      pick :| pick in matching;
      devices := devices[pick := devices[pick].(approved := true)];
      return Ok(()), pick;
    }

    method DeviceToken(code: string, now: nat, id: string, refresh: string, token: string, persists: bool)
      returns (r: Result<Model.Grant, Model.Refusal>)
      modifies this
      ensures (View(), r) == Model.DeviceToken(config, old(View()), code, now, id, refresh, token, persists)
    {
      if code !in devices {
        return Err(Model.InvalidRequest);
      }
      var device := devices[code];
      if device.expires <= now {
        return Err(Model.ExpiredToken);
      }
      if !device.approved {
        return Err(Model.AuthorizationPending);
      }
      devices := devices - {code};
      var connection := Model.Connection(true, 1, 0, Some(refresh), now + config.refreshTtl, now + config.accessTtl, 0);
      if !persists {
        return Err(Model.RefreshPersistFailed);
      }
      Note(Model.RefreshPersisted);
      Note(Model.GenerationBumped);
      counters := counters.(connections := counters.connections + 1);
      connections := connections[id := connection];
      issued := issued + {refresh};
      MintAccess(token, id, 1, now + config.accessTtl);
      return Ok(Model.Grant(id, 1, 0, token, refresh));
    }

    method Refresh(id: string, presented: string, now: nat, drawn: string, token: string, persists: bool)
      returns (r: Result<Model.Grant, Model.Refusal>)
      modifies this
      ensures (View(), r) == Model.Refresh(config, old(View()), id, presented, now, drawn, token, persists)
    {
      if id !in connections {
        return Err(Model.ProviderNotConnected);
      }
      var connection := connections[id];
      if !connection.connected {
        return Err(Model.ProviderNotConnected);
      }
      if connection.refreshToken != Some(presented) {
        return Err(Model.InvalidGrant);
      }
      if connection.refreshExpires <= now {
        return Err(Model.ExpiredToken);
      }
      var rotated := if config.rotate then drawn else presented;
      var fail := failPersistOnce;
      failPersistOnce := false;
      if fail || !persists {
        return Err(Model.RefreshPersistFailed);
      }
      connection := connection.(refreshToken := Some(rotated), secretVersion := connection.secretVersion + 1,
                                refreshExpires := now + config.refreshTtl, accessExpires := now + config.accessTtl);
      connections := connections[id := connection];
      issued := issued + {rotated};
      Note(Model.RefreshPersisted);
      counters := counters.(refreshes := counters.refreshes + 1);
      MintAccess(token, id, connection.generation, now + config.accessTtl);
      counters := counters.(refreshBeforeLease := counters.refreshBeforeLease + 1);
      return Ok(Model.Grant(id, connection.generation, connection.secretVersion, token, rotated));
    }

    method LeaseSession(id: string, generation: nat, now: nat, token: string) returns (r: Result<string, Model.Refusal>)
      modifies this
      ensures (View(), r) == Model.LeaseSession(old(View()), id, generation, now, token)
    {
      if id !in connections {
        return Err(Model.ProviderNotConnected);
      }
      var connection := connections[id];
      if connection.generation != generation {
        counters := counters.(stale := counters.stale + 1);
      }
      if !connection.connected {
        return Err(Model.ProviderNotConnected);
      }
      if connection.generation != generation {
        return Err(Model.ConnectionGenerationStale);
      }
      var left := Max(0, connection.accessExpires - now);
      if left == 0 {
        return Err(Model.AccessExpired);
      }
      connections := connections[id := connection.(sessions := connection.sessions + 1)];
      counters := counters.(sessionsPeak := Max(counters.sessionsPeak, connection.sessions + 1));
      MintAccess(token, id, generation, now + left);
      return Ok(token);
    }

    method Replace(id: string, now: nat, refresh: string, token: string, persists: bool)
      returns (r: Result<Model.Grant, Model.Refusal>)
      modifies this
      ensures (View(), r) == Model.Replace(config, old(View()), id, now, refresh, token, persists)
    {
      if id !in connections {
        return Err(Model.ProviderNotConnected);
      }
      var connection := connections[id];
      if !connection.connected {
        return Err(Model.ProviderNotConnected);
      }
      if !persists {
        return Err(Model.RefreshPersistFailed);
      }
      connection := connection.(refreshToken := Some(refresh), generation := connection.generation + 1,
                                secretVersion := 0, sessions := 0,
                                refreshExpires := now + config.refreshTtl, accessExpires := now + config.accessTtl);
      connections := connections[id := connection];
      issued := issued + {refresh};
      Note(Model.RefreshPersisted);
      Note(Model.GenerationBumped);
      MintAccess(token, id, connection.generation, now + config.accessTtl);
      return Ok(Model.Grant(id, connection.generation, 0, token, refresh));
    }

    method Disconnect(id: string) returns (r: Result<nat, Model.Refusal>)
      modifies this
      ensures (View(), r) == Model.Disconnect(old(View()), id)
    {
      if id !in connections {
        return Err(Model.ProviderNotConnected);
      }
      var connection := connections[id];
      if connection.connected {
        connection := connection.(connected := false, generation := connection.generation + 1,
                                  refreshToken := None, sessions := 0);
        connections := connections[id := connection];
        Note(Model.GenerationBumped);
      }
      return Ok(connection.generation);
    }

    /** Answers why a bearer is turned away, in the order the checks are made. */
    method CheckBearer(header: Option<string>, now: nat) returns (r: Result<(), Model.Refusal>)
      ensures r == Model.CheckBearer(View(), header, now)
    {
      if header.None? || !(Model.BEARER <= header.value) {
        return Err(Model.Unauthorized);
      }
      var bearer := header.value[|Model.BEARER|..];
      if bearer !in access {
        return Err(Model.Unauthorized);
      }
      var token := access[bearer];
      if token.expires <= now {
        return Err(Model.Unauthorized);
      }
      if token.connection !in connections {
        return Err(Model.ProviderNotConnected);
      }
      var connection := connections[token.connection];
      if !connection.connected || connection.generation != token.generation {
        return Err(Model.Unauthorized);
      }
      return Ok(());
    }

    method AuthorizeChat(header: Option<string>, now: nat) returns (r: Result<(), Model.Refusal>)
      modifies this`counters
      ensures (View(), r) == Model.Chat(old(View()), header, now)
    {
      r := CheckBearer(header, now);
      if r.Ok? {
        counters := counters.(chatAuthorized := counters.chatAuthorized + 1);
      } else {
        counters := counters.(chatRejected := counters.chatRejected + 1);
      }
    }
  }
}
