/** `refs/green/<branch>`: the newest commit of the default branch the gate has
    proved green, moved by compare-and-swap.

    A call reads the branch head, then the green ref, then swaps. Between those
    git calls the branch may move and other calls may run; the machine below
    interleaves them freely, any unfinished call may also end for lack of an answer
    from git, and a swap may move the ref and still be reported as failed. */
module GreenRef {
  import opened Prelude
  import opened Ancestry

  datatype Advance =
    | Moved(from: Option<Oid>, to: Oid)
    | Unchanged(at: Oid)
    | NotOnDefaultBranch
    | Stale(green: Oid)
    | Unavailable

  datatype Call =
    | HasHead(oid: Oid, head: Oid)
    | HasGreen(oid: Oid, head: Oid, green: Option<Oid>)
    | Finished(outcome: Advance)

  /** A swap that moved the ref, reported or not, and the head its call had read. */
  datatype Move = Move(call: nat, from: Option<Oid>, to: Oid, head: Oid)

  datatype State = State(branch: Option<Oid>, green: Option<Oid>, calls: map<nat, Call>, moves: seq<Move>)

  datatype Step =
    | MoveBranch(to: Option<Oid>)
    | ReadHead(call: nat, sha: Option<Oid>)
    | ReadGreen(call: nat)
    | Swap(call: nat, reply: Reply)
    | Abort(call: nat)

  // ---- One git call at a time ----

  /** The head is read and the commit found on it, or the call is over. */
  function OnHead(anc: Ancestors, branch: Option<Oid>, sha: Option<Oid>): Call {
    if branch.None? || sha.None? then Finished(Unavailable)
    else if !anc(sha.value, branch.value) then Finished(NotOnDefaultBranch)
    else HasHead(sha.value, branch.value)
  }

  /** The green ref is read and compared with the commit and the head read before. */
  function OnGreen(anc: Ancestors, oid: Oid, head: Oid, green: Option<Oid>): Call {
    if green == Some(oid) then Finished(Unchanged(oid))
    else if green.Some? && !anc(green.value, oid) && anc(green.value, head) then Finished(Stale(green.value))
    else HasGreen(oid, head, green)
  }

  function Next(anc: Ancestors, s: State, step: Step): State {
    match step
    case MoveBranch(to) => s.(branch := to)
    case ReadHead(c, sha) =>
      if c in s.calls then s else s.(calls := s.calls[c := OnHead(anc, s.branch, sha)])
    case ReadGreen(c) =>
      if c in s.calls && s.calls[c].HasHead?
      then s.(calls := s.calls[c := OnGreen(anc, s.calls[c].oid, s.calls[c].head, s.green)])
      else s
    case Swap(c, reply) =>
      if c in s.calls && s.calls[c].HasGreen? then
        var call := s.calls[c];
        if s.green == call.green && !reply.Refused?
        then State(s.branch, Some(call.oid),
                   s.calls[c := Finished(if reply.Done? then Moved(call.green, call.oid) else Unavailable)],
                   s.moves + [Move(c, call.green, call.oid, call.head)])
        else s.(calls := s.calls[c := Finished(Unavailable)])
      else s
    case Abort(c) =>
      if c in s.calls && !s.calls[c].Finished? then s.(calls := s.calls[c := Finished(Unavailable)]) else s
  }

  /** A call that is over stays as it is, and one that is cut off is over, with
      nothing moved by that. */
  lemma OverIsOver(anc: Ancestors, s: State, step: Step, c: nat)
    requires c in s.calls
    ensures s.calls[c].Finished? ==> c in Next(anc, s, step).calls && Next(anc, s, step).calls[c] == s.calls[c]
    ensures !s.calls[c].Finished? ==> Next(anc, s, Abort(c)) == s.(calls := s.calls[c := Finished(Unavailable)])
  {
  }

  function After(anc: Ancestors, branch: Option<Oid>, green: Option<Oid>, steps: seq<Step>): State {
    if steps == [] then State(branch, green, map[], [])
    else Next(anc, After(anc, branch, green, steps[..|steps| - 1]), steps[|steps| - 1])
  }

  // ---- Safety of every interleaving ----

  predicate Chained(initial: Option<Oid>, moves: seq<Move>, green: Option<Oid>) {
    && (moves == [] ==> green == initial)
    && (moves != [] ==> moves[0].from == initial && green == Some(moves[|moves| - 1].to))
    && (forall i :: 0 < i < |moves| ==> moves[i].from == Some(moves[i - 1].to))
  }

  /** Successful moves form one chain from the first green commit to the current
      one: no verdict is lost between two swaps. */
  lemma {:induction false} MovesFormAChain(anc: Ancestors, branch: Option<Oid>, green: Option<Oid>, steps: seq<Step>)
    ensures
      var s := After(anc, branch, green, steps);
      Chained(green, s.moves, s.green)
  {
    if steps != [] {
      MovesFormAChain(anc, branch, green, steps[..|steps| - 1]);
    }
  }

  /** Call `c` read `head` at a moment the branch named it, and `oid` was on it. */
  ghost predicate ReadAt(anc: Ancestors, branch: Option<Oid>, green: Option<Oid>, steps: seq<Step>,
                         c: nat, oid: Oid, head: Oid)
  {
    && anc(oid, head)
    && exists k :: 0 <= k < |steps| && steps[k] == ReadHead(c, Some(oid))
         && After(anc, branch, green, steps[..k]).branch == Some(head)
  }

  ghost predicate CallReadAt(anc: Ancestors, branch: Option<Oid>, green: Option<Oid>, steps: seq<Step>, c: nat,
                             call: Call)
  {
    call.Finished? || ReadAt(anc, branch, green, steps, c, call.oid, call.head)
  }

  lemma ReadAtLater(anc: Ancestors, branch: Option<Oid>, green: Option<Oid>, steps: seq<Step>, c: nat, oid: Oid,
                    head: Oid)
    requires steps != [] && ReadAt(anc, branch, green, steps[..|steps| - 1], c, oid, head)
    ensures ReadAt(anc, branch, green, steps, c, oid, head)
  {
    var init := steps[..|steps| - 1];
    var k :| 0 <= k < |init| && init[k] == ReadHead(c, Some(oid))
      && After(anc, branch, green, init[..k]).branch == Some(head);
    assert steps[..k] == init[..k] && steps[k] == init[k];
  }

  /** Every move put the ref on a commit its own head read carried, forward of
      the green commit exactly when that head still descended from it. */
  ghost predicate SoundMove(anc: Ancestors, branch: Option<Oid>, green: Option<Oid>, steps: seq<Step>, m: Move) {
    && ReadAt(anc, branch, green, steps, m.call, m.to, m.head)
    && (m.from.Some? ==> m.from.value != m.to && (anc(m.from.value, m.to) <==> anc(m.from.value, m.head)))
  }

  /** A call about to swap has passed both tests against the green commit it read. */
  predicate Tested(anc: Ancestors, call: Call) {
    call.HasGreen? && call.green.Some? ==>
      call.green.value != call.oid && (anc(call.green.value, call.oid) || !anc(call.green.value, call.head))
  }

  lemma {:induction false} CallsAreSound(anc: Ancestors, branch: Option<Oid>, green: Option<Oid>, steps: seq<Step>,
                                         c: nat)
    requires c in After(anc, branch, green, steps).calls
    ensures
      var call := After(anc, branch, green, steps).calls[c];
      CallReadAt(anc, branch, green, steps, c, call) && Tested(anc, call)
  {
    if steps != [] {
      var init, step := steps[..|steps| - 1], steps[|steps| - 1];
      var before, after := After(anc, branch, green, init), After(anc, branch, green, steps);
      if c in before.calls {
        CallsAreSound(anc, branch, green, init, c);
        var call := before.calls[c];
        if !call.Finished? {
          ReadAtLater(anc, branch, green, steps, c, call.oid, call.head);
        }
      } else if after.calls[c].HasHead? {
        var call := after.calls[c];
        assert steps[|init|] == ReadHead(c, Some(call.oid)) && steps[..|init|] == init;
      }
    }
  }

  /** Main result: what every interleaving of calls and branch moves leaves behind. */
  lemma {:induction false} EveryMoveIsSound(anc: Ancestors, branch: Option<Oid>, green: Option<Oid>, steps: seq<Step>,
                                            m: Move)
    requires IsDag(anc) && m in After(anc, branch, green, steps).moves
    ensures SoundMove(anc, branch, green, steps, m)
  {
    var init, step := steps[..|steps| - 1], steps[|steps| - 1];
    var before := After(anc, branch, green, init);
    if m in before.moves {
      EveryMoveIsSound(anc, branch, green, init, m);
      ReadAtLater(anc, branch, green, steps, m.call, m.to, m.head);
    } else {
      CallsAreSound(anc, branch, green, init, step.call);
      ReadAtLater(anc, branch, green, steps, m.call, m.to, m.head);
    }
  }

  /** So with a head snapshot that still descends from the green commit, the ref
      never goes back to an ancestor. */
  lemma NeverRewinds(anc: Ancestors, branch: Option<Oid>, green: Option<Oid>, steps: seq<Step>, m: Move)
    requires IsDag(anc) && m in After(anc, branch, green, steps).moves
    requires m.from.Some? && anc(m.from.value, m.head)
    ensures anc(m.from.value, m.to) && !anc(m.to, m.from.value)
  {
    EveryMoveIsSound(anc, branch, green, steps, m);
  }

  // ---- The snapshot hypothesis is needed ----

  /** A branch that only fast-forwards from `b` to `c`, and two calls. The first
      reads its head before the fast-forward and the green ref after the second
      has proved the newer tip; its swap takes the ref back to `a`. */
  function RewindingRun(a: Oid, c: Oid): seq<Step> {
    [ReadHead(1, Some(a)), MoveBranch(Some(c)), ReadHead(2, Some(c)), ReadGreen(2), Swap(2, Done), ReadGreen(1),
     Swap(1, Done)]
  }

  lemma AStaleHeadRewinds(anc: Ancestors, a: Oid, b: Oid, c: Oid)
    requires IsDag(anc) && anc(a, b) && anc(b, c) && a != b && b != c
    ensures
      var s := After(anc, Some(b), None, RewindingRun(a, c));
      && s.branch == Some(c)
      && s.moves == [Move(2, None, c, c), Move(1, Some(c), a, b)]
      && s.green == Some(a) && anc(a, c) && a != c
  {
    assert anc(a, c) && !anc(c, b) && !anc(c, a) && anc(c, c);
    Rewinding(anc, a, b, c);
  }

  lemma Rewinding(anc: Ancestors, a: Oid, b: Oid, c: Oid)
    requires anc(a, b) && anc(c, c) && !anc(c, a) && !anc(c, b)
    ensures
      var s := After(anc, Some(b), None, RewindingRun(a, c));
      s.branch == Some(c) && s.green == Some(a) && s.moves == [Move(2, None, c, c), Move(1, Some(c), a, b)]
  {
    var run := RewindingRun(a, c);
    var one := map[1 := HasHead(a, b)];
    var s2 := State(Some(c), None, one, []);
    var s5 := State(Some(c), Some(c), one[2 := Finished(Moved(None, c))], [Move(2, None, c, c)]);
    FirstHead(anc, a, b, c);
    SecondCall(anc, s2, 2, c);
    LateSwap(anc, s5, a, b, c);
    SevenSteps(anc, Some(b), None, run, s2, s5);
  }

  lemma SevenSteps(anc: Ancestors, branch: Option<Oid>, green: Option<Oid>, run: seq<Step>, s2: State, s5: State)
    requires |run| == 7 && Next(anc, Next(anc, State(branch, green, map[], []), run[0]), run[1]) == s2
    requires Next(anc, Next(anc, Next(anc, s2, run[2]), run[3]), run[4]) == s5
    ensures After(anc, branch, green, run) == Next(anc, Next(anc, s5, run[5]), run[6])
  {
    assert run[..0] == [] && run[..7] == run;
    TwoSteps(anc, branch, green, run, 0, State(branch, green, map[], []));
    TwoSteps(anc, branch, green, run, 2, s2);
    OneStep(anc, branch, green, run, 4, Next(anc, Next(anc, s2, run[2]), run[3]));
    TwoSteps(anc, branch, green, run, 5, s5);
  }

  lemma OneStep(anc: Ancestors, branch: Option<Oid>, green: Option<Oid>, run: seq<Step>, n: nat, s: State)
    requires n < |run| && After(anc, branch, green, run[..n]) == s
    ensures After(anc, branch, green, run[..n + 1]) == Next(anc, s, run[n])
  {
    Unroll(anc, branch, green, run, n + 1);
  }

  lemma TwoSteps(anc: Ancestors, branch: Option<Oid>, green: Option<Oid>, run: seq<Step>, n: nat, s: State)
    requires n + 2 <= |run| && After(anc, branch, green, run[..n]) == s
    ensures After(anc, branch, green, run[..n + 2]) == Next(anc, Next(anc, s, run[n]), run[n + 1])
  {
    OneStep(anc, branch, green, run, n, s);
    OneStep(anc, branch, green, run, n + 1, Next(anc, s, run[n]));
  }

  lemma FirstHead(anc: Ancestors, a: Oid, b: Oid, c: Oid)
    requires anc(a, b)
    ensures Next(anc, Next(anc, State(Some(b), None, map[], []), ReadHead(1, Some(a))), MoveBranch(Some(c))) ==
      State(Some(c), None, map[1 := HasHead(a, b)], [])
  {
  }

  lemma SecondCall(anc: Ancestors, s: State, id: nat, c: Oid)
    requires anc(c, c) && s.branch == Some(c) && s.green.None? && id !in s.calls
    ensures Next(anc, Next(anc, Next(anc, s, ReadHead(id, Some(c))), ReadGreen(id)), Swap(id, Done)) ==
      State(Some(c), Some(c), s.calls[id := Finished(Moved(None, c))], s.moves + [Move(id, None, c, c)])
  {
    var s1 := s.(calls := s.calls[id := HasHead(c, c)]);
    var s2 := s.(calls := s.calls[id := HasGreen(c, c, None)]);
    assert Next(anc, s, ReadHead(id, Some(c))) == s1;
    assert Next(anc, s1, ReadGreen(id)) == s2;
  }

  lemma LateSwap(anc: Ancestors, s: State, a: Oid, b: Oid, c: Oid)
    requires !anc(c, a) && !anc(c, b) && anc(c, c) && s.green == Some(c) && 1 in s.calls && s.calls[1] == HasHead(a, b)
    ensures
      var s' := Next(anc, Next(anc, s, ReadGreen(1)), Swap(1, Done));
      s'.branch == s.branch && s'.green == Some(a) && s'.moves == s.moves + [Move(1, Some(c), a, b)]
  {
  }

  lemma Unroll(anc: Ancestors, branch: Option<Oid>, green: Option<Oid>, steps: seq<Step>, n: nat)
    requires 0 < n <= |steps|
    ensures After(anc, branch, green, steps[..n]) == Next(anc, After(anc, branch, green, steps[..n - 1]), steps[n - 1])
  {
    assert steps[..n][..n - 1] == steps[..n - 1];
  }

  // ---- Calls one after another ----

  /** A call nothing interleaves with. */
  function AdvanceAlone(anc: Ancestors, branch: Option<Oid>, green: Option<Oid>, sha: Option<Oid>)
    : (Option<Oid>, Advance)
  {
    var first := OnHead(anc, branch, sha);
    if first.Finished? then (green, first.outcome)
    else
      var second := OnGreen(anc, first.oid, first.head, green);
      if second.Finished? then (green, second.outcome) else (Some(second.oid), Moved(green, second.oid))
  }

  /** The refs of one repository, and the call as the forge makes it. */
  class Refs {
    var branch: Option<Oid>
    var green: Option<Oid>

    method AdvanceTo(anc: Ancestors, sha: Option<Oid>) returns (outcome: Advance)
      modifies this
      ensures (green, outcome) == AdvanceAlone(anc, old(branch), old(green), sha) && branch == old(branch)
    {
      var head := branch;
      if head.None? || sha.None? {
        return Unavailable;
      }
      var oid := sha.value;
      if !anc(oid, head.value) {
        return NotOnDefaultBranch;
      }
      var current := green;
      if current.Some? {
        if current.value == oid {
          return Unchanged(oid);
        }
        var forward := anc(current.value, oid);
        if !forward && anc(current.value, head.value) {
          return Stale(current.value);
        }
      }
      green := Some(oid);
      return Moved(current, oid);
    }
  }

  /** Three steps of one call with nothing between them are that call alone. */
  lemma AloneIsThreeSteps(anc: Ancestors, s: State, c: nat, sha: Option<Oid>)
    requires c !in s.calls
    ensures
      var s' := Next(anc, Next(anc, Next(anc, s, ReadHead(c, sha)), ReadGreen(c)), Swap(c, Done));
      && s'.green == AdvanceAlone(anc, s.branch, s.green, sha).0
      && s'.calls[c] == Finished(AdvanceAlone(anc, s.branch, s.green, sha).1)
      && s'.branch == s.branch
  {
  }

  datatype Event = FastForward(tip: Oid) | Prove(sha: Oid)

  /** Branch, green ref and the commits proved while the branch carried them. */
  datatype History = History(branch: Oid, green: Option<Oid>, proved: set<Oid>)

  function Play(anc: Ancestors, start: Oid, events: seq<Event>): History {
    if events == [] then History(start, None, {})
    else
      var h := Play(anc, start, events[..|events| - 1]);
      match events[|events| - 1]
      case FastForward(tip) => if anc(h.branch, tip) then h.(branch := tip) else h
      case Prove(sha) =>
        History(h.branch, AdvanceAlone(anc, Some(h.branch), h.green, Some(sha)).0,
                if anc(sha, h.branch) then h.proved + {sha} else h.proved)
  }

  /** Main result: on a fast-forward branch that ends on one line, calls in any
      order leave the newest proved commit. */
  lemma {:induction false} NewestProvedWins(anc: Ancestors, start: Oid, events: seq<Event>)
    requires IsDag(anc) && LinearBelow(anc, Play(anc, start, events).branch)
    ensures
      var h := Play(anc, start, events);
      && (h.green.None? <==> h.proved == {})
      && (h.green.Some? ==>
            h.green.value in h.proved && anc(h.green.value, h.branch) && forall p :: p in h.proved ==>
                anc(p, h.green.value))
  {
    if events != [] {
      var init := events[..|events| - 1];
      assert anc(Play(anc, start, init).branch, Play(anc, start, events).branch);
      assert LinearBelow(anc, Play(anc, start, init).branch);
      NewestProvedWins(anc, start, init);
    }
  }
}
