/** What every run of the mock provider keeps. */
module MockSafety {
  import opened Prelude
  import opened MockProvider

  // ---- One step, connection by connection ----

  /** A connection that was there stays, its generation does not go down, and
      once disconnected it is never connected again. */
  predicate Follows(c: Connection, c': Connection) {
    c.generation <= c'.generation && (!c.connected ==> c' == c)
  }

  /** The step gives the connection a new generation. */
  predicate Bumps(s: State, step: Step, id: string) {
    && id in s.connections && s.connections[id].connected
    && ((step.DoReplace? && step.id == id && step.persists) || (step.DoDisconnect? && step.id == id))
  }

  /** What a step does to a connection that is there. */
  predicate Moves(s: State, step: Step, s': State, id: string)
    requires id in s.connections
  {
    && id in s'.connections && Follows(s.connections[id], s'.connections[id])
    && (Bumps(s, step, id) ==> s'.connections[id].generation == s.connections[id].generation + 1)
    && (!Bumps(s, step, id) ==> s'.connections[id].generation == s.connections[id].generation
                                && s'.connections[id].connected == s.connections[id].connected)
  }

  lemma EndingStep(config: Config, s: State, step: Step, id: string)
    requires id in s.connections && (step.DoReplace? || step.DoDisconnect?)
    ensures Moves(s, step, Next(config, s, step), id)
  {
  }

  lemma KeepingStep(config: Config, s: State, step: Step, id: string)
    requires id in s.connections && Fresh(s, step) && (step.DoDeviceToken? || step.DoRefresh? || step.DoLease?)
    ensures Moves(s, step, Next(config, s, step), id)
  {
  }

  lemma ConnectionStep(config: Config, s: State, step: Step, id: string)
    requires id in s.connections && Fresh(s, step)
    ensures Moves(s, step, Next(config, s, step), id)
  {
    if step.DoReplace? || step.DoDisconnect? {
      EndingStep(config, s, step, id);
    } else if step.DoDeviceToken? || step.DoRefresh? || step.DoLease? {
      KeepingStep(config, s, step, id);
    }
  }

  lemma AccessStep(config: Config, s: State, step: Step, token: string)
    requires token in s.access && Fresh(s, step)
    ensures
      var s' := Next(config, s, step);
      token in s'.access && s'.access[token] == s.access[token]
  {
  }

  // ---- Generations ----

  lemma {:induction false} GenerationsNeverDecrease(config: Config, start: State, steps: seq<Step>, k: nat, j: nat,
                                                    id: string)
    requires AlwaysFresh(config, start, steps) && k <= j <= |steps|
    requires id in After(config, start, steps[..k]).connections
    ensures
      var s, s' := After(config, start, steps[..k]), After(config, start, steps[..j]);
      id in s'.connections && Follows(s.connections[id], s'.connections[id])
    decreases j
  {
    if k < j {
      GenerationsNeverDecrease(config, start, steps, k, j - 1, id);
      ConnectionStep(config, After(config, start, steps[..j - 1]), steps[j - 1], id);
      Unroll(config, start, steps, j);
    }
  }

  /** No token belongs to a generation its connection has not reached. */
  predicate Grounded(s: State) {
    forall t :: t in s.access ==>
      && s.access[t].connection in s.connections
      && s.access[t].generation <= s.connections[s.access[t].connection].generation
  }

  lemma TokenGrounded(config: Config, s: State, step: Step, t: string)
    requires Grounded(s) && Fresh(s, step) && t in Next(config, s, step).access
    ensures
      var s' := Next(config, s, step);
      s'.access[t].connection in s'.connections
      && s'.access[t].generation <= s'.connections[s'.access[t].connection].generation
  {
    if t in s.access {
      AccessStep(config, s, step, t);
      ConnectionStep(config, s, step, s.access[t].connection);
    }
  }

  lemma {:induction false} RunGrounded(config: Config, start: State, steps: seq<Step>)
    requires AlwaysFresh(config, start, steps) && Grounded(start)
    ensures Grounded(After(config, start, steps))
  {
    if steps != [] {
      var n := |steps| - 1;
      FreshPrefix(config, start, steps, n);
      RunGrounded(config, start, steps[..n]);
      var s := After(config, start, steps[..n]);
      forall t | t in Next(config, s, steps[n]).access
        ensures
          var s' := Next(config, s, steps[n]);
          s'.access[t].connection in s'.connections
          && s'.access[t].generation <= s'.connections[s'.access[t].connection].generation
      {
        TokenGrounded(config, s, steps[n], t);
      }
    }
  }

  lemma {:induction false} TokenStays(config: Config, start: State, steps: seq<Step>, k: nat, j: nat, token: string)
    requires AlwaysFresh(config, start, steps) && k <= j <= |steps|
    requires token in After(config, start, steps[..k]).access
    ensures
      var s, s' := After(config, start, steps[..k]), After(config, start, steps[..j]);
      token in s'.access && s'.access[token] == s.access[token]
    decreases j
  {
    if k < j {
      TokenStays(config, start, steps, k, j - 1, token);
      AccessStep(config, After(config, start, steps[..j - 1]), steps[j - 1], token);
      Unroll(config, start, steps, j);
    }
  }

  /** Main result: a token minted before its connection was replaced or
      disconnected opens nothing in any later state, at any time. */
  lemma FencedForGood(config: Config, start: State, steps: seq<Step>, k: nat, j: nat, token: string, now: nat)
    requires AlwaysFresh(config, start, steps) && Grounded(start) && k < j <= |steps|
    requires token in After(config, start, steps[..k]).access
    requires Bumps(After(config, start, steps[..k]), steps[k],
                   After(config, start, steps[..k]).access[token].connection)
    ensures !Live(After(config, start, steps[..j]), token, now)
  {
    var s := After(config, start, steps[..k]);
    var id := s.access[token].connection;
    FreshPrefix(config, start, steps, k);
    RunGrounded(config, start, steps[..k]);
    ConnectionStep(config, s, steps[k], id);
    Unroll(config, start, steps, k + 1);
    GenerationsNeverDecrease(config, start, steps, k + 1, j, id);
    TokenStays(config, start, steps, k, j, token);
  }

  /** Main result: any other step, a refresh above all, leaves every token minted
      so far exactly as good as it was. */
  lemma OtherStepsLeaveTokens(config: Config, s: State, step: Step, token: string, now: nat)
    requires Fresh(s, step) && Grounded(s) && token in s.access && !Bumps(s, step, s.access[token].connection)
    ensures Live(Next(config, s, step), token, now) <==> Live(s, token, now)
  {
    AccessStep(config, s, step, token);
    ConnectionStep(config, s, step, s.access[token].connection);
  }

  // ---- Refresh tokens ----

  /** Stored refresh tokens were all handed out, and no two connections share one. */
  predicate Apart(s: State) {
    AllIssued(s.connections, s.issued) && NoneShared(s.connections)
  }

  predicate AllIssued(connections: map<string, Connection>, issued: set<string>) {
    forall id :: id in connections && connections[id].refreshToken.Some? ==>
        connections[id].refreshToken.value in issued
  }

  predicate NoneShared(connections: map<string, Connection>) {
    forall a, b :: a in connections && b in connections && connections[a].refreshToken.Some?
                   && connections[a].refreshToken == connections[b].refreshToken
                   ==> a == b
  }

  /** The connection written at `id` holds no token, the one it held, or a new one. */
  predicate OwnToken(s: State, issued: set<string>, id: string, c: Connection) {
    c.refreshToken.Some? ==>
      && c.refreshToken.value in issued
      && (c.refreshToken.value in s.issued ==> id in s.connections && s.connections[id].refreshToken == c.refreshToken)
  }

  /** What a step writes: nothing, or one connection with a token of its own. */
  ghost predicate WritesOne(s: State, s': State, id: string) {
    && s.issued <= s'.issued
    && (s'.connections == s.connections
        || (id in s'.connections && s'.connections == s.connections[id := s'.connections[id]]
            && OwnToken(s, s'.issued, id, s'.connections[id])))
  }

  lemma ConnectWrites(config: Config, s: State, now: nat, id: string, refresh: string, access: string)
    requires refresh !in s.issued
    ensures WritesOne(s, Connected(config, s, now, id, refresh, access), id)
  {
  }

  lemma RefreshWrites(config: Config, s: State, id: string, now: nat, rotated: string, access: string)
    requires id in s.connections && (rotated !in s.issued || s.connections[id].refreshToken == Some(rotated))
    ensures WritesOne(s, Refreshed(config, s, id, now, rotated, access), id)
  {
  }

  lemma LeaseWrites(s: State, id: string, access: string)
    requires id in s.connections && AllIssued(s.connections, s.issued)
    ensures WritesOne(s, Leased(s, id, access), id)
  {
  }

  lemma ReplaceWrites(config: Config, s: State, id: string, now: nat, refresh: string, access: string)
    requires id in s.connections && refresh !in s.issued
    ensures WritesOne(s, Replaced(config, s, id, now, refresh, access), id)
  {
  }

  lemma DisconnectWrites(s: State, id: string)
    requires id in s.connections
    ensures WritesOne(s, Disconnected(s, id), id)
  {
  }

  lemma GrantWritesOne(config: Config, s: State, step: Step) returns (id: string)
    requires Fresh(s, step) && (step.DoDeviceToken? || step.DoRefresh?)
    ensures WritesOne(s, Next(config, s, step), id)
  {
    id := step.id;
    if step.DoDeviceToken? {
      ConnectWrites(config, s.(devices := s.devices - {step.code}), step.now, id, step.refresh, step.access);
    } else if id in s.connections && s.connections[id].refreshToken == Some(step.presented) {
      RefreshWrites(config, s, id, step.now, if config.rotate then step.refresh else step.presented, step.access);
    }
  }

  lemma OtherWritesOne(config: Config, s: State, step: Step) returns (id: string)
    requires Fresh(s, step) && AllIssued(s.connections, s.issued)
    requires step.DoLease? || step.DoReplace? || step.DoDisconnect?
    ensures WritesOne(s, Next(config, s, step), id)
  {
    id := step.id;
    if id in s.connections {
      if step.DoLease? {
        LeaseWrites(s, id, step.access);
      } else if step.DoReplace? {
        ReplaceWrites(config, s, id, step.now, step.refresh, step.access);
      } else {
        DisconnectWrites(s, id);
      }
    }
  }

  lemma StepWritesOne(config: Config, s: State, step: Step) returns (id: string)
    requires Fresh(s, step) && AllIssued(s.connections, s.issued)
    ensures WritesOne(s, Next(config, s, step), id)
  {
    if step.DoDeviceToken? || step.DoRefresh? {
      id := GrantWritesOne(config, s, step);
    } else if step.DoLease? || step.DoReplace? || step.DoDisconnect? {
      id := OtherWritesOne(config, s, step);
    } else {
      id := "";
    }
  }

  lemma ApartWrite(s: State, issued: set<string>, id: string, c: Connection)
    requires Apart(s) && s.issued <= issued && OwnToken(s, issued, id, c)
    ensures AllIssued(s.connections[id := c], issued) && NoneShared(s.connections[id := c])
  {
  }

  lemma StepApart(config: Config, s: State, step: Step)
    requires Apart(s) && Fresh(s, step)
    ensures Apart(Next(config, s, step))
  {
    var id := StepWritesOne(config, s, step);
    var s' := Next(config, s, step);
    if s'.connections != s.connections {
      ApartWrite(s, s'.issued, id, s'.connections[id]);
    }
  }

  lemma {:induction false} RunApart(config: Config, start: State, steps: seq<Step>)
    requires AlwaysFresh(config, start, steps) && Apart(start)
    ensures Apart(After(config, start, steps))
  {
    if steps != [] {
      var n := |steps| - 1;
      FreshPrefix(config, start, steps, n);
      RunApart(config, start, steps[..n]);
      StepApart(config, After(config, start, steps[..n]), steps[n]);
    }
  }

  /** The token was handed out and no connection holds it any more. */
  predicate Spent(s: State, token: string) {
    && token in s.issued
    && forall id :: id in s.connections ==> s.connections[id].refreshToken != Some(token)
  }

  /** A refresh with `token` goes through. */
  predicate Wins(config: Config, s: State, step: Step, token: string) {
    && step.DoRefresh? && step.presented == token
    && Refresh(config, s, step.id, token, step.now, step.refresh, step.access, step.persists).1.Ok?
  }

  lemma SpentStays(config: Config, s: State, step: Step, token: string)
    requires Spent(s, token) && Fresh(s, step)
    ensures Spent(Next(config, s, step), token) && !Wins(config, s, step, token)
  {
  }

  lemma WinningSpends(config: Config, s: State, step: Step, token: string)
    requires config.rotate && Apart(s) && Fresh(s, step) && Wins(config, s, step, token)
    ensures Spent(Next(config, s, step), token)
  {
    var s' := Next(config, s, step);
    assert s.connections[step.id].refreshToken == Some(token);
    assert s'.connections[step.id].refreshToken == Some(step.refresh);
    forall id | id in s'.connections
      ensures s'.connections[id].refreshToken != Some(token)
    {
      assert id != step.id ==> s'.connections[id] == s.connections[id];
    }
  }

  lemma {:induction false} SpentForGood(config: Config, start: State, steps: seq<Step>, k: nat, j: nat, token: string)
    requires AlwaysFresh(config, start, steps) && k <= j <= |steps| && Spent(After(config, start, steps[..k]), token)
    ensures Spent(After(config, start, steps[..j]), token)
    decreases j
  {
    if k < j {
      SpentForGood(config, start, steps, k, j - 1, token);
      SpentStays(config, After(config, start, steps[..j - 1]), steps[j - 1], token);
      Unroll(config, start, steps, j);
    }
  }

  /** Main result: with rotation on, a refresh token wins at most one refresh. */
  lemma WinsAtMostOnce(config: Config, start: State, steps: seq<Step>, k: nat, j: nat, token: string)
    requires config.rotate && AlwaysFresh(config, start, steps) && Apart(start) && k < j < |steps|
    requires Wins(config, After(config, start, steps[..k]), steps[k], token)
    ensures !Wins(config, After(config, start, steps[..j]), steps[j], token)
  {
    FreshPrefix(config, start, steps, k);
    RunApart(config, start, steps[..k]);
    WinningSpends(config, After(config, start, steps[..k]), steps[k], token);
    Unroll(config, start, steps, k + 1);
    SpentForGood(config, start, steps, k + 1, j, token);
    SpentStays(config, After(config, start, steps[..j]), steps[j], token);
  }

  /** The connection stands, and `token` is its refresh token, until that instant. */
  predicate Holds(s: State, id: string, token: string, until: nat) {
    && id in s.connections && s.connections[id].connected
    && s.connections[id].refreshToken == Some(token) && s.connections[id].refreshExpires == until
  }

  /** The step ends the token: its connection is replaced or disconnected, or it wins. */
  predicate EndsToken(config: Config, s: State, step: Step, id: string, token: string) {
    Bumps(s, step, id) || (step.DoRefresh? && step.id == id && Wins(config, s, step, token))
  }

  predicate EndsAt(config: Config, start: State, steps: seq<Step>, m: nat, id: string, token: string)
    requires m < |steps|
  {
    EndsToken(config, After(config, start, steps[..m]), steps[m], id, token)
  }

  lemma HoldsStep(config: Config, s: State, step: Step, id: string, token: string, until: nat)
    requires Holds(s, id, token, until) && Fresh(s, step) && !EndsToken(config, s, step, id, token)
    ensures Holds(Next(config, s, step), id, token, until)
  {
  }

  lemma {:induction false} HoldsOn(config: Config, start: State, steps: seq<Step>, k: nat, j: nat, id: string,
                                   token: string, until: nat)
    requires AlwaysFresh(config, start, steps) && k <= j <= |steps|
    requires Holds(After(config, start, steps[..k]), id, token, until)
    requires forall m: nat :: k <= m < j ==> !EndsAt(config, start, steps, m, id, token)
    ensures Holds(After(config, start, steps[..j]), id, token, until)
    decreases j
  {
    if k < j {
      HoldsOn(config, start, steps, k, j - 1, id, token, until);
      HoldsNext(config, start, steps, j, id, token, until);
    }
  }

  lemma HoldsNext(config: Config, start: State, steps: seq<Step>, j: nat, id: string, token: string, until: nat)
    requires AlwaysFresh(config, start, steps) && 0 < j <= |steps| && !EndsAt(config, start, steps, j - 1, id, token)
    requires Holds(After(config, start, steps[..j - 1]), id, token, until)
    ensures Holds(After(config, start, steps[..j]), id, token, until)
  {
    HoldsStep(config, After(config, start, steps[..j - 1]), steps[j - 1], id, token, until);
    Unroll(config, start, steps, j);
  }

  /** Main result: until it wins, or its connection is replaced or disconnected, a
      refresh token wins a try that can persist exactly while it has not expired,
      however many tries with it have failed to persist before. */
  lemma GoodUntilItWins(config: Config, start: State, steps: seq<Step>, k: nat, j: nat, id: string, token: string,
                        until: nat,
                        now: nat, drawn: string, access: string)
    requires AlwaysFresh(config, start, steps) && k <= j <= |steps|
    requires Holds(After(config, start, steps[..k]), id, token, until)
    requires forall m: nat :: k <= m < j ==> !EndsAt(config, start, steps, m, id, token)
    ensures
      var s := After(config, start, steps[..j]).(failPersistOnce := false);
      Refresh(config, s, id, token, now, drawn, access, true).1.Ok? <==> now < until
  {
    HoldsOn(config, start, steps, k, j, id, token, until);
  }

  // ---- Conservation ----

  function Count(events: seq<Event>, kind: Kind): nat {
    if events == [] then 0
    else Count(events[..|events| - 1], kind) + if events[|events| - 1].kind == kind then 1 else 0
  }

  ghost function Generations(m: map<string, Connection>): nat {
    if m == map[] then 0 else
      var id :| id in m;
      m[id].generation + Generations(m - {id})
  }

  lemma {:induction false} TakeOut(m: map<string, Connection>, id: string)
    requires id in m
    ensures Generations(m) == m[id].generation + Generations(m - {id})
    decreases |m|
  {
    var first :| first in m && Generations(m) == m[first].generation + Generations(m - {first});
    if first != id {
      TakeOut(m - {first}, id);
      TakeOut(m - {id}, first);
      assert m - {first} - {id} == m - {id} - {first};
    }
  }

  lemma PutIn(m: map<string, Connection>, id: string, c: Connection)
    ensures Generations(m[id := c]) == Generations(m) + c.generation - if id in m then m[id].generation else 0
  {
    TakeOut(m[id := c], id);
    if id in m {
      TakeOut(m, id);
      assert m[id := c] - {id} == m - {id};
    } else {
      assert m[id := c] - {id} == m;
    }
  }

  predicate Numbered(events: seq<Event>) {
    forall i :: 0 <= i < |events| ==> events[i].number == i + 1
  }

  /** The log against the totals it should add up to. */
  predicate AddsUp(events: seq<Event>, bumped: nat, leased: nat, persisted: nat) {
    && Numbered(events)
    && Count(events, GenerationBumped) == bumped
    && Count(events, AccessLeaseIssued) == leased
    && Count(events, RefreshPersisted) == persisted
  }

  /** The books balance: `replaced` is how many credentials were replaced. */
  ghost predicate Balanced(s: State, replaced: nat) {
    && AddsUp(s.events, Generations(s.connections), |s.access|, |s.connections| + s.counters.refreshes + replaced)
    && s.counters.leases == |s.access|
    && s.counters.connections == |s.connections|
    && s.counters.refreshBeforeLease == s.counters.refreshes
  }

  lemma NotedCounts(events: seq<Event>, kind: Kind, bumped: nat, leased: nat, persisted: nat)
    requires AddsUp(events, bumped, leased, persisted)
    ensures AddsUp(Noted(events, kind), bumped + if kind.GenerationBumped? then 1 else 0,
                   leased + if kind.AccessLeaseIssued? then 1 else 0, persisted + if kind.RefreshPersisted? then 1
                       else 0)
  {
    assert Noted(events, kind)[..|events|] == events;
  }

  /** A refresh token written, perhaps a generation begun, an access token minted. */
  lemma GrantCounts(events: seq<Event>, begins: bool, bumped: nat, leased: nat, persisted: nat)
    requires AddsUp(events, bumped, leased, persisted)
    ensures
      var written := Noted(events, RefreshPersisted);
      AddsUp(Noted(if begins then Noted(written, GenerationBumped) else written, AccessLeaseIssued),
             bumped + if begins then 1 else 0, leased + 1, persisted + 1)
  {
    var written := Noted(events, RefreshPersisted);
    NotedCounts(events, RefreshPersisted, bumped, leased, persisted);
    if begins {
      NotedCounts(written, GenerationBumped, bumped, leased, persisted + 1);
      NotedCounts(Noted(written, GenerationBumped), AccessLeaseIssued, bumped + 1, leased, persisted + 1);
    } else {
      NotedCounts(written, AccessLeaseIssued, bumped, leased, persisted + 1);
    }
  }

  lemma ConnectBalances(config: Config, s: State, now: nat, id: string, refresh: string, access: string, replaced: nat)
    requires Balanced(s, replaced) && id !in s.connections && access !in s.access
    ensures Balanced(Connected(config, s, now, id, refresh, access), replaced)
  {
    var s' := Connected(config, s, now, id, refresh, access);
    PutIn(s.connections, id, s'.connections[id]);
    GrantCounts(s.events, true, Generations(s.connections), |s.access|,
                |s.connections| + s.counters.refreshes + replaced);
  }

  lemma RefreshBalances(config: Config, s: State, id: string, now: nat, rotated: string, access: string, replaced: nat)
    requires Balanced(s, replaced) && id in s.connections && access !in s.access
    ensures Balanced(Refreshed(config, s, id, now, rotated, access), replaced)
  {
    var s' := Refreshed(config, s, id, now, rotated, access);
    PutIn(s.connections, id, s'.connections[id]);
    GrantCounts(s.events, false, Generations(s.connections), |s.access|,
                |s.connections| + s.counters.refreshes + replaced);
  }

  lemma LeaseBalances(s: State, id: string, access: string, replaced: nat)
    requires Balanced(s, replaced) && id in s.connections && access !in s.access
    ensures Balanced(Leased(s, id, access), replaced)
  {
    var s' := Leased(s, id, access);
    PutIn(s.connections, id, s'.connections[id]);
    NotedCounts(s.events, AccessLeaseIssued, Generations(s.connections), |s.access|,
                |s.connections| + s.counters.refreshes + replaced);
  }

  lemma ReplaceBalances(config: Config, s: State, id: string, now: nat, refresh: string, access: string, replaced: nat)
    requires Balanced(s, replaced) && id in s.connections && access !in s.access
    ensures Balanced(Replaced(config, s, id, now, refresh, access), replaced + 1)
  {
    var s' := Replaced(config, s, id, now, refresh, access);
    PutIn(s.connections, id, s'.connections[id]);
    GrantCounts(s.events, true, Generations(s.connections), |s.access|,
                |s.connections| + s.counters.refreshes + replaced);
  }

  lemma DisconnectBalances(s: State, id: string, replaced: nat)
    requires Balanced(s, replaced) && id in s.connections
    ensures Balanced(Disconnected(s, id), replaced)
  {
    var s' := Disconnected(s, id);
    PutIn(s.connections, id, s'.connections[id]);
    NotedCounts(s.events, GenerationBumped, Generations(s.connections), |s.access|,
                |s.connections| + s.counters.refreshes + replaced);
  }

  /** The step replaces a credential. */
  predicate IsReplacement(config: Config, s: State, step: Step) {
    step.DoReplace? && Replace(config, s, step.id, step.now, step.refresh, step.access, step.persists).1.Ok?
  }

  function Replacements(config: Config, start: State, steps: seq<Step>): nat {
    if steps == [] then 0
    else
      var init := steps[..|steps| - 1];
      Replacements(config, start, init) +
      if IsReplacement(config, After(config, start, init), steps[|steps| - 1]) then 1 else 0
  }

  predicate SameBooks(s: State, s': State) {
    && s'.connections == s.connections && s'.access == s.access && s'.events == s.events
    && s'.counters.leases == s.counters.leases && s'.counters.connections == s.counters.connections
    && s'.counters.refreshes == s.counters.refreshes && s'.counters.refreshBeforeLease == s.counters.refreshBeforeLease
  }

  lemma SameBooksBalance(s: State, s': State, replaced: nat)
    requires Balanced(s, replaced) && SameBooks(s, s')
    ensures Balanced(s', replaced)
  {
  }

  /** What a step leaves: the same books, or those of the one effect it can have. */
  ghost predicate Effect(config: Config, s: State, step: Step) {
    var s' := Next(config, s, step);
    || SameBooks(s, s')
    || (step.DoDeviceToken?
        && s' == Connected(config, s.(devices := s.devices - {step.code}), step.now, step.id, step.refresh,
                           step.access))
    || (step.DoRefresh? && step.id in s.connections
        && s' == Refreshed(config, s, step.id, step.now, if config.rotate then step.refresh else step.presented,
                           step.access))
    || (step.DoLease? && step.id in s.connections && s' == Leased(s, step.id, step.access))
    || (IsReplacement(config, s, step) && s' == Replaced(config, s, step.id, step.now, step.refresh, step.access))
    || (step.DoDisconnect? && step.id in s.connections && s' == Disconnected(s, step.id))
  }

  lemma OneEffect(config: Config, s: State, step: Step)
    ensures Effect(config, s, step)
    ensures IsReplacement(config, s, step) ==>
              step.id in s.connections
              && Next(config, s, step) == Replaced(config, s, step.id, step.now, step.refresh, step.access)
  {
  }

  lemma StepBalances(config: Config, s: State, step: Step, replaced: nat)
    requires Balanced(s, replaced) && Fresh(s, step)
    ensures Balanced(Next(config, s, step), replaced + if IsReplacement(config, s, step) then 1 else 0)
  {
    OneEffect(config, s, step);
    var s' := Next(config, s, step);
    if IsReplacement(config, s, step) {
      ReplaceBalances(config, s, step.id, step.now, step.refresh, step.access, replaced);
    } else if SameBooks(s, s') {
      SameBooksBalance(s, s', replaced);
    } else {
      EffectBalances(config, s, step, replaced);
    }
  }

  lemma EffectBalances(config: Config, s: State, step: Step, replaced: nat)
    requires Balanced(s, replaced) && Fresh(s, step) && Effect(config, s, step)
    requires !IsReplacement(config, s, step) && !SameBooks(s, Next(config, s, step))
    ensures Balanced(Next(config, s, step), replaced)
  {
    if step.DoDeviceToken? {
      var used := s.(devices := s.devices - {step.code});
      SameBooksBalance(s, used, replaced);
      ConnectBalances(config, used, step.now, step.id, step.refresh, step.access, replaced);
    } else if step.DoRefresh? {
      RefreshBalances(config, s, step.id, step.now, if config.rotate then step.refresh else step.presented,
                      step.access, replaced);
    } else if step.DoLease? {
      LeaseBalances(s, step.id, step.access, replaced);
    } else {
      DisconnectBalances(s, step.id, replaced);
    }
  }

  /** Main result: in every run events are numbered 1..n, generation bumps add up
      to the generations, leases to the tokens, and persisted refresh tokens to
      connections, refreshes and replacements. */
  lemma {:induction false} BooksBalance(config: Config, failOnce: bool, steps: seq<Step>)
    requires AlwaysFresh(config, Start(failOnce), steps)
    ensures Balanced(After(config, Start(failOnce), steps), Replacements(config, Start(failOnce), steps))
  {
    if steps != [] {
      var n := |steps| - 1;
      FreshPrefix(config, Start(failOnce), steps, n);
      BooksBalance(config, failOnce, steps[..n]);
      var s := After(config, Start(failOnce), steps[..n]);
      StepBalances(config, s, steps[n], Replacements(config, Start(failOnce), steps[..n]));
    }
  }
}
