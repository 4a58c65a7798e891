/** Deleting a merged pull request's head branch: pin the merged head under
    `refs/pull/<n>/head`, write an audit row, then delete by compare-and-swap.

    Each git or audit call is one step. Between any two steps other writers move
    any branch and other cleanups run, a call may stop for good after any step, and
    a write may take effect and still be reported as failed. Only cleanups write
    pull refs, and a pull request merges one head. */
module HeadCleanup {
  import opened Prelude
  import opened Ancestry

  datatype Merged = Merged(branch: string, head: Oid)

  /** The head each pull request merged. */
  type Merges = nat -> Merged

  datatype Row =
    | Requested(pull: nat, branch: string, oldSha: Oid)
    | Answered(request: nat, completed: bool)

  datatype Call =
    | Cleared(pull: nat)
    | HasPull(pull: nat, current: Option<Oid>)
    | Pinned(pull: nat)
    | Audited(pull: nat, request: nat)
    | Tried(pull: nat, request: nat, deleted: bool)
    | Finished(deleted: bool)

  datatype State = State(branches: map<string, Oid>, pulls: map<nat, Oid>, rows: seq<Row>, calls: map<nat, Call>)

  /** `works` is whether git or the audit log answers the call. */
  datatype Step =
    | Push(branch: string, to: Option<Oid>)
    | Begin(call: nat, pull: nat, keep: bool)
    | ReadPull(call: nat, works: bool)
    | Pin(call: nat, reply: Reply)
    | Request(call: nat, reply: Reply)
    | Delete(call: nat, reply: Reply)
    | Answer(call: nat, works: bool)
    | Crash(call: nat)

  function Find<K, V>(m: map<K, V>, k: K): Option<V> {
    if k in m then Some(m[k]) else None
  }

  // ---- One call at a time ----

  function ToRead(s: State, pull: nat, merges: Merges, works: bool): Call {
    if !works then Finished(false)
    else if Find(s.pulls, pull) == Some(merges(pull).head) then Pinned(pull)
    else HasPull(pull, Find(s.pulls, pull))
  }

  function ToPin(s: State, c: nat, pull: nat, current: Option<Oid>, merges: Merges, reply: Reply): State {
    if Find(s.pulls, pull) == current && !reply.Refused?
    then s.(pulls := s.pulls[pull := merges(pull).head],
            calls := s.calls[c := if reply.Done? then Pinned(pull) else Finished(false)])
    else s.(calls := s.calls[c := Finished(false)])
  }

  function ToRequest(s: State, c: nat, pull: nat, merges: Merges, reply: Reply): State {
    if !reply.Refused?
    then s.(rows := s.rows + [Requested(pull, merges(pull).branch, merges(pull).head)],
            calls := s.calls[c := if reply.Done? then Audited(pull, |s.rows|) else Finished(false)])
    else s.(calls := s.calls[c := Finished(false)])
  }

  /** The delete of the call takes effect: the branch still names the merged head. */
  predicate Deletes(s: State, pull: nat, merges: Merges, reply: Reply) {
    !reply.Refused? && Find(s.branches, merges(pull).branch) == Some(merges(pull).head)
  }

  function ToDelete(s: State, c: nat, pull: nat, request: nat, merges: Merges, reply: Reply): State {
    var gone := Deletes(s, pull, merges, reply);
    s.(branches := if gone then s.branches - {merges(pull).branch} else s.branches,
       calls := s.calls[c := Tried(pull, request, gone && reply.Done?)])
  }

  function ToAnswer(s: State, c: nat, request: nat, deleted: bool, works: bool): State {
    s.(rows := if works then s.rows + [Answered(request, deleted)] else s.rows,
       calls := s.calls[c := Finished(deleted)])
  }

  function Next(merges: Merges, s: State, step: Step): State {
    match step
    case Push(b, to) => s.(branches := if to.Some? then s.branches[b := to.value] else s.branches - {b})
    case Begin(c, pull, keep) =>
      if c in s.calls then s else s.(calls := s.calls[c := if keep then Finished(false) else Cleared(pull)])
    case ReadPull(c, works) =>
      if c in s.calls && s.calls[c].Cleared?
      then s.(calls := s.calls[c := ToRead(s, s.calls[c].pull, merges, works)]) else s
    case Pin(c, reply) =>
      if c in s.calls && s.calls[c].HasPull?
      then ToPin(s, c, s.calls[c].pull, s.calls[c].current, merges, reply) else s
    case Request(c, reply) =>
      if c in s.calls && s.calls[c].Pinned? then ToRequest(s, c, s.calls[c].pull, merges, reply) else s
    case Delete(c, reply) =>
      if c in s.calls && s.calls[c].Audited?
      then ToDelete(s, c, s.calls[c].pull, s.calls[c].request, merges, reply) else s
    case Answer(c, works) =>
      if c in s.calls && s.calls[c].Tried?
      then ToAnswer(s, c, s.calls[c].request, s.calls[c].deleted, works) else s
    case Crash(c) =>
      if c in s.calls && !s.calls[c].Finished? then s.(calls := s.calls[c := Finished(false)]) else s
  }

  /** A call that is over stays as it is, and one that is cut off is over, without
      a deletion to its name. */
  lemma OverIsOver(merges: Merges, s: State, step: Step, c: nat)
    requires c in s.calls
    ensures s.calls[c].Finished? ==> c in Next(merges, s, step).calls && Next(merges, s, step).calls[c] == s.calls[c]
    ensures !s.calls[c].Finished? ==> Next(merges, s, Crash(c)) == s.(calls := s.calls[c := Finished(false)])
  {
  }

  function After(merges: Merges, start: State, steps: seq<Step>): State {
    if steps == [] then start else Next(merges, After(merges, start, steps[..|steps| - 1]), steps[|steps| - 1])
  }

  // ---- What every step keeps ----

  predicate PinHolds(s: State, pull: nat, merges: Merges) {
    Find(s.pulls, pull) == Some(merges(pull).head)
  }

  predicate IsRequest(rows: seq<Row>, request: nat, pull: nat, merges: Merges) {
    request < |rows| && rows[request] == Requested(pull, merges(pull).branch, merges(pull).head)
  }

  /** Past the pin the pull ref names the merged head; past the audit its row stands. */
  predicate CallHolds(s: State, call: Call, merges: Merges) {
    && (call.Pinned? || call.Audited? || call.Tried? ==> PinHolds(s, call.pull, merges))
    && (call.Audited? || call.Tried? ==> IsRequest(s.rows, call.request, call.pull, merges))
  }

  predicate Sound(s: State, merges: Merges) {
    forall c :: c in s.calls ==> CallHolds(s, s.calls[c], merges)
  }

  /** A pin, once written, stays; rows are only added; only pushes and deletes move branches. */
  lemma StepKeeps(merges: Merges, s: State, step: Step, pull: nat)
    requires Sound(s, merges)
    ensures Sound(Next(merges, s, step), merges)
    ensures PinHolds(s, pull, merges) ==> PinHolds(Next(merges, s, step), pull, merges)
    ensures s.rows <= Next(merges, s, step).rows
    ensures !step.Push? && !step.Delete? ==> Next(merges, s, step).branches == s.branches
  {
    var s' := Next(merges, s, step);
    forall c | c in s'.calls
      ensures CallHolds(s', s'.calls[c], merges)
    {
      CallKept(merges, s, step, c);
    }
  }

  lemma CallKept(merges: Merges, s: State, step: Step, c: nat)
    requires Sound(s, merges) && c in Next(merges, s, step).calls
    ensures CallHolds(Next(merges, s, step), Next(merges, s, step).calls[c], merges)
  {
    var s' := Next(merges, s, step);
    assert c in s.calls ==> CallHolds(s, s.calls[c], merges);
  }

  lemma {:induction false} RunKeeps(merges: Merges, start: State, steps: seq<Step>)
    requires start.calls == map[]
    ensures Sound(After(merges, start, steps), merges)
  {
    if steps != [] {
      RunKeeps(merges, start, steps[..|steps| - 1]);
      StepKeeps(merges, After(merges, start, steps[..|steps| - 1]), steps[|steps| - 1], 0);
    }
  }

  lemma {:induction false} PinStays(merges: Merges, start: State, steps: seq<Step>, k: nat, j: nat, pull: nat)
    requires start.calls == map[] && k <= j <= |steps|
    requires PinHolds(After(merges, start, steps[..k]), pull, merges)
    ensures PinHolds(After(merges, start, steps[..j]), pull, merges)
    ensures After(merges, start, steps[..k]).rows <= After(merges, start, steps[..j]).rows
    decreases j
  {
    if k < j {
      PinStays(merges, start, steps, k, j - 1, pull);
      RunKeeps(merges, start, steps[..j - 1]);
      StepKeeps(merges, After(merges, start, steps[..j - 1]), steps[j - 1], pull);
      assert steps[..j][..j - 1] == steps[..j - 1];
    }
  }

  /** Step `k` of the run is a cleanup taking a branch away. */
  ghost predicate DeletedAt(merges: Merges, start: State, steps: seq<Step>, k: nat, pull: nat)
    requires k < |steps|
  {
    var s := After(merges, start, steps[..k]);
    && steps[k].Delete? && steps[k].call in s.calls && s.calls[steps[k].call].Audited?
    && s.calls[steps[k].call].pull == pull
    && Next(merges, s, steps[k]).branches != s.branches
  }

  /** Main result: in every interleaving and with any crash, a cleanup takes a
      branch away only while it names the merged head and after its audit row was
      written, and from before the delete onward the pull ref names that head. */
  lemma DeletesOnlyWhatIsPinned(merges: Merges, start: State, steps: seq<Step>, k: nat, pull: nat, j: nat)
    requires start.calls == map[] && k < |steps| && DeletedAt(merges, start, steps, k, pull) && k <= j <= |steps|
    ensures
      var s := After(merges, start, steps[..k]);
      && Find(s.branches, merges(pull).branch) == Some(merges(pull).head)
      && Next(merges, s, steps[k]).branches == s.branches - {merges(pull).branch}
      && IsRequest(s.rows, s.calls[steps[k].call].request, pull, merges)
      && PinHolds(After(merges, start, steps[..j]), pull, merges)
      && s.rows <= After(merges, start, steps[..j]).rows
  {
    RunKeeps(merges, start, steps[..k]);
    var s := After(merges, start, steps[..k]);
    assert CallHolds(s, s.calls[steps[k].call], merges);
    PinStays(merges, start, steps, k, j, pull);
  }

  // ---- The audit log ----

  /** The request a call still has to answer. */
  function Owes(call: Call): Option<nat> {
    if call.Audited? || call.Tried? then Some(call.request) else None
  }

  predicate Unanswered(rows: seq<Row>, request: nat) {
    && request < |rows| && rows[request].Requested?
    && forall i :: 0 <= i < |rows| && rows[i].Answered? ==> rows[i].request != request
  }

  predicate NoneShared(calls: map<nat, Call>) {
    forall c, d :: c in calls && d in calls && Owes(calls[c]).Some? && Owes(calls[c]) == Owes(calls[d]) ==> c == d
  }

  predicate AllOpen(s: State) {
    forall c :: c in s.calls && Owes(s.calls[c]).Some? ==> Unanswered(s.rows, Owes(s.calls[c]).value)
  }

  /** Every answer is to an earlier request, and no request is answered twice. */
  predicate Paired(rows: seq<Row>) {
    && (forall i :: 0 <= i < |rows| && rows[i].Answered? ==> rows[i].request < i && rows[rows[i].request].Requested?)
    && (forall i, j :: 0 <= i < j < |rows| && rows[i].Answered? && rows[j].Answered? ==>
        rows[i].request != rows[j].request)
  }

  predicate Booked(s: State) {
    NoneShared(s.calls) && AllOpen(s) && Paired(s.rows)
  }

  lemma OpenKept(merges: Merges, s: State, step: Step, c: nat)
    requires Booked(s) && c in Next(merges, s, step).calls
    ensures
      var s' := Next(merges, s, step);
      Owes(s'.calls[c]).Some? ==> Unanswered(s'.rows, Owes(s'.calls[c]).value)
  {
    if step.Request? || step.Answer? {
      RowOpenKept(merges, s, step, c);
    } else {
      assert c in s.calls && Owes(s.calls[c]).Some? ==> Unanswered(s.rows, Owes(s.calls[c]).value);
    }
  }

  lemma RowOpenKept(merges: Merges, s: State, step: Step, c: nat)
    requires Booked(s) && c in Next(merges, s, step).calls && (step.Request? || step.Answer?)
    ensures
      var s' := Next(merges, s, step);
      Owes(s'.calls[c]).Some? ==> Unanswered(s'.rows, Owes(s'.calls[c]).value)
  {
    assert c in s.calls && Owes(s.calls[c]).Some? ==> Unanswered(s.rows, Owes(s.calls[c]).value);
  }

  lemma SharedKept(merges: Merges, s: State, step: Step)
    requires Booked(s)
    ensures NoneShared(Next(merges, s, step).calls)
  {
  }

  lemma StepBooks(merges: Merges, s: State, step: Step)
    requires Booked(s)
    ensures Booked(Next(merges, s, step))
  {
    var s' := Next(merges, s, step);
    SharedKept(merges, s, step);
    forall c | c in s'.calls && Owes(s'.calls[c]).Some?
      ensures Unanswered(s'.rows, Owes(s'.calls[c]).value)
    {
      OpenKept(merges, s, step, c);
    }
  }

  /** Main result: whatever interleaves and wherever calls stop, each answer in
      the audit log is to one earlier request, and each request has at most one. */
  lemma {:induction false} AnswersPairUp(merges: Merges, start: State, steps: seq<Step>)
    requires start.calls == map[] && Paired(start.rows)
    ensures Booked(After(merges, start, steps))
  {
    if steps != [] {
      AnswersPairUp(merges, start, steps[..|steps| - 1]);
      StepBooks(merges, After(merges, start, steps[..|steps| - 1]), steps[|steps| - 1]);
    }
  }

  /** Some step of the run took a branch away under `request`. */
  ghost predicate DeletedUnder(merges: Merges, start: State, steps: seq<Step>, request: nat) {
    exists k: nat, pull: nat :: k < |steps| && DeletedAt(merges, start, steps, k, pull)
      && After(merges, start, steps[..k]).calls[steps[k].call].request == request
  }

  lemma DeletedUnderLater(merges: Merges, start: State, steps: seq<Step>, request: nat)
    requires steps != [] && DeletedUnder(merges, start, steps[..|steps| - 1], request)
    ensures DeletedUnder(merges, start, steps, request)
  {
    var init := steps[..|steps| - 1];
    var k: nat, pull: nat :| k < |init| && DeletedAt(merges, start, init, k, pull)
      && After(merges, start, init[..k]).calls[init[k].call].request == request;
    assert init[..k] == steps[..k] && init[k] == steps[k];
    assert DeletedAt(merges, start, steps, k, pull);
  }

  /** Main result: a "completed" row, and a call that reports the branch deleted,
      stand for a deletion that took place. */
  lemma {:induction false} CompletedMeansDeleted(merges: Merges, start: State, steps: seq<Step>, request: nat)
    requires start.calls == map[] && start.rows == []
    ensures
      var s := After(merges, start, steps);
      && (Answered(request, true) in s.rows ==> DeletedUnder(merges, start, steps, request))
      && (forall c :: c in s.calls && s.calls[c].Tried? && s.calls[c].deleted && s.calls[c].request == request ==>
            DeletedUnder(merges, start, steps, request))
  {
    if steps != [] {
      var n := |steps| - 1;
      CompletedMeansDeleted(merges, start, steps[..n], request);
      if DeletedUnder(merges, start, steps[..n], request) {
        DeletedUnderLater(merges, start, steps, request);
      } else {
        NewlyDeleted(merges, start, steps, request);
      }
    }
  }

  lemma NewlyDeleted(merges: Merges, start: State, steps: seq<Step>, request: nat)
    requires steps != []
    requires
      var s := After(merges, start, steps[..|steps| - 1]);
      && Answered(request, true) !in s.rows
      && forall c :: c in s.calls && s.calls[c].Tried? && s.calls[c].request == request ==> !s.calls[c].deleted
    ensures
      var s := After(merges, start, steps);
      && Answered(request, true) !in s.rows
      && (forall c :: c in s.calls && s.calls[c].Tried? && s.calls[c].deleted && s.calls[c].request == request ==>
            DeletedUnder(merges, start, steps, request))
  {
    var n := |steps| - 1;
    var s, s' := After(merges, start, steps[..n]), After(merges, start, steps);
    forall c | c in s'.calls && s'.calls[c].Tried? && s'.calls[c].deleted && s'.calls[c].request == request
      ensures DeletedUnder(merges, start, steps, request)
    {
      assert steps[n] == Delete(c, Done);
      var pull := s.calls[c].pull;
      assert merges(pull).branch in s.branches && merges(pull).branch !in s'.branches;
      assert DeletedAt(merges, start, steps, n, pull);
    }
  }

  // ---- A call nothing interleaves with ----

  /** How git and the audit log answer one call. */
  datatype Luck = Luck(keep: bool, read: bool, pin: Reply, request: Reply, delete: Reply, answer: bool)

  /** The six steps of one call in a row. */
  function Pinning(merges: Merges, s: State, c: nat, pull: nat, luck: Luck): State {
    Next(merges, Next(merges, Next(merges, s, Begin(c, pull, luck.keep)), ReadPull(c, luck.read)), Pin(c, luck.pin))
  }

  function Deleting(merges: Merges, s: State, c: nat, luck: Luck): State {
    Next(merges, Next(merges, Next(merges, s, Request(c, luck.request)), Delete(c, luck.delete)),
         Answer(c, luck.answer))
  }

  lemma PinningEnds(merges: Merges, s: State, c: nat, pull: nat, luck: Luck)
    requires s.calls == map[]
    ensures
      var m := merges(pull);
      var pinned := !luck.keep && luck.read && (Find(s.pulls, pull) == Some(m.head) || luck.pin.Done?);
      var written := pinned || (!luck.keep && luck.read && luck.pin.Lost?);
      Pinning(merges, s, c, pull, luck) ==
      State(s.branches, if written then s.pulls[pull := m.head] else s.pulls, s.rows,
            map[c := if pinned then Pinned(pull) else Finished(false)])
  {
  }

  lemma NotPinned(merges: Merges, s: State, c: nat, luck: Luck)
    requires c in s.calls && s.calls[c] == Finished(false)
    ensures Deleting(merges, s, c, luck) == s
  {
  }

  /** What a pinned call leaves: the branch gone or not, and its two rows. */
  lemma DeletingEnds(merges: Merges, s: State, c: nat, pull: nat, luck: Luck)
    requires c in s.calls && s.calls[c] == Pinned(pull)
    ensures
      var m := merges(pull);
      var gone := luck.request.Done? && Deletes(s, pull, merges, luck.delete);
      var asked := if !luck.request.Refused? then s.rows + [Requested(pull, m.branch, m.head)] else s.rows;
      Deleting(merges, s, c, luck) ==
      State(if gone then s.branches - {m.branch} else s.branches, s.pulls,
            if luck.request.Done? && luck.answer then asked + [Answered(|s.rows|, gone && luck.delete.Done?)]
                else asked,
            s.calls[c := Finished(gone && luck.delete.Done?)])
  {
    var s1 := Next(merges, s, Request(c, luck.request));
    if luck.request.Done? {
      var s2 := ToDelete(s1, c, pull, |s.rows|, merges, luck.delete);
      assert Next(merges, s1, Delete(c, luck.delete)) == s2;
      assert s2.calls == s.calls[c := s2.calls[c]];
      assert Next(merges, s2, Answer(c, luck.answer)) == ToAnswer(s2, c, |s.rows|, s2.calls[c].deleted, luck.answer);
    }
  }

  /** The repository and its audit log, and the cleanup as the forge makes it. */
  class Repository {
    var branches: map<string, Oid>
    var pulls: map<nat, Oid>
    var rows: seq<Row>

    ghost function View(calls: map<nat, Call>): State
      reads this
    {
      State(branches, pulls, rows, calls)
    }

    method PinPullHead(merged: Merged, pull: nat, luck: Luck) returns (pinned: bool)
      modifies this`pulls
      ensures pinned <==> luck.read && (Find(old(pulls), pull) == Some(merged.head) || luck.pin.Done?)
      ensures pulls == if pinned || (luck.read && luck.pin.Lost?) then old(pulls)[pull := merged.head] else old(pulls)
    {
      if !luck.read {
        return false;
      }
      var current := Find(pulls, pull);
      if current == Some(merged.head) {
        return true;
      }
      if !luck.pin.Refused? {
        pulls := pulls[pull := merged.head];
      }
      pinned := luck.pin.Done?;
    }

    method DeleteMergedHead(merged: Merged, pull: nat, luck: Luck, ghost merges: Merges) returns (deleted: bool)
      requires merged == merges(pull)
      modifies this
      ensures View(map[0 := Finished(deleted)]) ==
              Deleting(merges, Pinning(merges, old(View(map[])), 0, pull, luck), 0, luck)
      ensures deleted <==>
              && !luck.keep && luck.read && (Find(old(pulls), pull) == Some(merged.head) || luck.pin.Done?)
              && luck.request.Done? && luck.delete.Done? && Find(old(branches), merged.branch) == Some(merged.head)
    {
      PinningEnds(merges, View(map[]), 0, pull, luck);
      ghost var middle := Pinning(merges, View(map[]), 0, pull, luck);
      if luck.keep {
        NotPinned(merges, middle, 0, luck);
        return false;
      }
      var pinned := PinPullHead(merged, pull, luck);
      if !pinned {
        NotPinned(merges, middle, 0, luck);
        return false;
      }
      deleted := DeletePinned(merged, pull, luck, merges);
    }

    method DeletePinned(merged: Merged, pull: nat, luck: Luck, ghost merges: Merges) returns (deleted: bool)
      requires merged == merges(pull)
      modifies this
      ensures View(map[0 := Finished(deleted)]) == Deleting(merges, old(View(map[0 := Pinned(pull)])), 0, luck)
      ensures deleted <==>
              && luck.request.Done? && luck.delete.Done?
              && Find(old(branches), merged.branch) == Some(merged.head)
    {
      DeletingEnds(merges, View(map[0 := Pinned(pull)]), 0, pull, luck);
      assert map[0 := Pinned(pull)][0 := Finished(false)] == map[0 := Finished(false)];
      assert map[0 := Pinned(pull)][0 := Finished(true)] == map[0 := Finished(true)];
      var id := |rows|;
      if !luck.request.Refused? {
        rows := rows + [Requested(pull, merged.branch, merged.head)];
      }
      if !luck.request.Done? {
        return false;
      }
      var stands := Find(branches, merged.branch) == Some(merged.head);
      if stands && !luck.delete.Refused? {
        branches := branches - {merged.branch};
      }
      deleted := stands && luck.delete.Done?;
      if luck.answer {
        rows := rows + [Answered(id, deleted)];
      }
    }
  }
}
