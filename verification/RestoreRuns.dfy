/** Whole runs of the forge that end with a restore: pull requests are pushed, the
    forge restarts and the pass runs over them. */
module RestoreRuns {
  import opened Prelude
  import opened Verdict
  import opened ProofProtocol
  import opened ProofSafety
  import opened RestorePass
  import Q = AuditQueue

  /** Everything works for the pull request, and its head is worth an audit. */
  predicate Plain(pull: Pull) {
    && pull.open && Auditable(pull.branch, pull.head, pull.env)
    && pull.env.checksReadable && pull.env.scoresReadable && pull.env.postWorks
  }

  predicate AllPlain(pulls: seq<Pull>) {
    forall i :: 0 <= i < |pulls| ==> Plain(pulls[i])
  }

  predicate HeadsDiffer(pulls: seq<Pull>) {
    forall i, j :: 0 <= i < j < |pulls| ==> Key(pulls[i]) != Key(pulls[j])
  }

  predicate BranchesDiffer(pulls: seq<Pull>) {
    forall i, j :: 0 <= i < j < |pulls| ==> !SameBranch(pulls[i], pulls[j])
  }

  function PushOf(pull: Pull): Step {
    Push(pull.owner, pull.repo, RefUpdate(HEADS_PREFIX + pull.branch, ZERO_OID, pull.head), pull.env, pull.output, 0)
  }

  function PushesOf(pulls: seq<Pull>): seq<Step> {
    if pulls == [] then [] else PushesOf(pulls[..|pulls| - 1]) + [PushOf(pulls[|pulls| - 1])]
  }

  /** Push them all, restart, restore. */
  function Run(pulls: seq<Pull>): seq<Step> {
    PushesOf(pulls) + [Restart, Restore(pulls, 0)]
  }

  /** After the pushes: no score, every head pending, tickets for these heads only. */
  ghost predicate Pushed(f: Forge, pulls: seq<Pull>) {
    && f.scores == [] && Q.Good(f.tickets) && AllFree(f.tickets)
    && (forall i :: 0 <= i < |pulls| ==> ProofPending(f, pulls[i].owner, pulls[i].repo, pulls[i].head))
    && forall t :: t in f.tickets ==> exists i :: 0 <= i < |pulls| && Key(pulls[i]) == t.Key()
  }

  /** A push of a new head posts its pending proof, whatever the queue does. */
  lemma PushPosts(site: Site, f: Forge, pull: Pull)
    requires f.scores == [] && Plain(pull) && Q.Good(f.tickets) && AllFree(f.tickets) && Q.Absent(f.tickets, Key(pull))
    ensures Next(site, f, PushOf(pull)) ==
            Forge([], f.proofs + [Pending(site, pull.owner, pull.repo, pull.head, pull.output)],
                  Q.Enqueued(f.tickets, Asked(pull, 0), 0).0)
  {
    var update := RefUpdate(HEADS_PREFIX + pull.branch, ZERO_OID, pull.head);
    var ticket := BranchTicket(pull.owner, pull.repo, pull.branch, pull.head, pull.env, 0);
    BranchIsNoQueueRef(pull.branch);
    assert Evidence(f, pull.owner, pull.repo, update, pull.env) == [];
    UncoveredAsks(site, f, false, ticket, true, 0);
    FreeStays(f.tickets, 0);
  }

  lemma PushedNext(site: Site, f: Forge, pulls: seq<Pull>, pull: Pull)
    requires Pushed(f, pulls) && Plain(pull) && forall i :: 0 <= i < |pulls| ==> Key(pulls[i]) != Key(pull)
    ensures Pushed(Next(site, f, PushOf(pull)), pulls + [pull])
  {
    var more := pulls + [pull];
    forall i | 0 <= i < |f.tickets| ensures f.tickets[i].Key() != Key(pull) {
      assert f.tickets[i] in f.tickets;
    }
    PushPosts(site, f, pull);
    AskedFor(pull, 0);
    EnqueueAdds(f.tickets, Asked(pull, 0), 0);
    var f' := Next(site, f, PushOf(pull));
    var p := Pending(site, pull.owner, pull.repo, pull.head, pull.output);
    forall i | 0 <= i < |more| ensures ProofPending(f', more[i].owner, more[i].repo, more[i].head) {
      NewestPosted(f.proofs, p, more[i].owner, more[i].repo, more[i].head);
    }
    forall t | t in f'.tickets ensures exists i :: 0 <= i < |more| && Key(more[i]) == t.Key() {
      if t == Asked(pull, 0) {
        assert Key(more[|pulls|]) == t.Key();
      } else {
        var i :| 0 <= i < |pulls| && Key(pulls[i]) == t.Key();
        assert Key(more[i]) == t.Key();
      }
    }
  }

  lemma AfterSnoc(site: Site, steps: seq<Step>, step: Step)
    ensures After(site, steps + [step]) == Next(site, After(site, steps), step)
  {
    assert (steps + [step])[..|steps|] == steps;
  }

  lemma OneMorePush(site: Site, steps: seq<Step>, before: Forge, pulls: seq<Pull>, pull: Pull) returns (f: Forge)
    requires LeadsTo(site, steps, before) && Pushed(before, pulls)
    requires Plain(pull) && forall i :: 0 <= i < |pulls| ==> Key(pulls[i]) != Key(pull)
    ensures LeadsTo(site, steps + [PushOf(pull)], f) && Pushed(f, pulls + [pull])
  {
    PushedNext(site, before, pulls, pull);
    AfterSnoc(site, steps, PushOf(pull));
    f := Next(site, before, PushOf(pull));
  }

  /** The run `steps` leads to `f`. */
  ghost predicate LeadsTo(site: Site, steps: seq<Step>, f: Forge) {
    After(site, steps) == f
  }

  lemma {:induction false} AfterPushes(site: Site, pulls: seq<Pull>) returns (f: Forge)
    requires AllPlain(pulls) && HeadsDiffer(pulls)
    ensures LeadsTo(site, PushesOf(pulls), f) && Pushed(f, pulls)
  {
    if pulls == [] {
      f := NoPush(site);
    } else {
      FewerPlain(pulls);
      var before := AfterPushes(site, pulls[..|pulls| - 1]);
      f := LastPush(site, pulls, before);
    }
  }

  lemma FewerPlain(pulls: seq<Pull>)
    requires AllPlain(pulls) && HeadsDiffer(pulls) && pulls != []
    ensures AllPlain(pulls[..|pulls| - 1]) && HeadsDiffer(pulls[..|pulls| - 1])
  {
  }

  lemma LastPush(site: Site, pulls: seq<Pull>, before: Forge) returns (f: Forge)
    requires AllPlain(pulls) && HeadsDiffer(pulls) && pulls != []
    requires LeadsTo(site, PushesOf(pulls[..|pulls| - 1]), before) && Pushed(before, pulls[..|pulls| - 1])
    ensures LeadsTo(site, PushesOf(pulls), f) && Pushed(f, pulls)
  {
    var init, pull := pulls[..|pulls| - 1], pulls[|pulls| - 1];
    f := OneMorePush(site, PushesOf(init), before, init, pull);
    assert init + [pull] == pulls;
  }

  lemma NoPush(site: Site) returns (f: Forge)
    ensures LeadsTo(site, [], f) && Pushed(f, [])
  {
    f := Forge([], [], []);
  }

  lemma RestartThenRestore(site: Site, steps: seq<Step>, f: Forge, pulls: seq<Pull>)
    requires After(site, steps) == f
    ensures After(site, steps + [Restart, Restore(pulls, 0)]) == RestorePending(site, f.(tickets := []), pulls, 0).0
  {
    AfterSnoc(site, steps, Restart);
    AfterSnoc(site, steps + [Restart], Restore(pulls, 0));
    assert steps + [Restart] + [Restore(pulls, 0)] == steps + [Restart, Restore(pulls, 0)];
  }

  /** Where the pass of the run starts. */
  lemma BeforePass(site: Site, pulls: seq<Pull>) returns (f: Forge)
    requires AllPlain(pulls) && HeadsDiffer(pulls)
    ensures f.tickets == [] && AllOwed(f, pulls) && f.scores == []
    ensures After(site, Run(pulls)) == RestorePending(site, f, pulls, 0).0
  {
    var g := AfterPushes(site, pulls);
    RestartThenRestore(site, PushesOf(pulls), g, pulls);
    f := g.(tickets := []);
    PushedOwes(g, f, pulls);
  }

  lemma PushedOwes(g: Forge, f: Forge, pulls: seq<Pull>)
    requires Pushed(g, pulls) && AllPlain(pulls) && f.proofs == g.proofs
    ensures AllOwed(f, pulls)
  {
    forall i | 0 <= i < |pulls| ensures Owed(f, pulls[i]) {
      assert Plain(pulls[i]);
    }
  }

  predicate AllOwed(f: Forge, pulls: seq<Pull>) {
    forall i :: 0 <= i < |pulls| ==> Owed(f, pulls[i])
  }

  predicate EachHasTicket(pulls: seq<Pull>, f: Forge) {
    forall i :: 0 <= i < |pulls| ==> Key(pulls[i]) in Keys(f.tickets)
  }

  lemma PlainIsDue(f: Forge, pulls: seq<Pull>)
    requires AllPlain(pulls) && AllOwed(f, pulls) && f.scores == []
    ensures AllDue(f, pulls) && forall i :: 0 <= i < |pulls| ==> Due(f, pulls[i])
  {
    forall i | 0 <= i < |pulls| ensures Due(f, pulls[i]) {
      assert Plain(pulls[i]) && Owed(f, pulls[i]);
    }
  }

  /** Main result: a run that pushes pull requests with different heads, restarts and
      restores ends with all of them pending, and with a ticket for each of them if
      and only if their branches differ and they are at most 512. */
  lemma RunServesExactlyWhen(site: Site, pulls: seq<Pull>)
    requires AllPlain(pulls) && HeadsDiffer(pulls)
    ensures EachHasTicket(pulls, After(site, Run(pulls))) <==> BranchesDiffer(pulls) && |pulls| <= Q.CAPACITY
    ensures AllOwed(After(site, Run(pulls)), pulls)
  {
    var f := BeforePass(site, pulls);
    PassKeepsOwed(site, f, pulls);
    PlainIsDue(f, pulls);
    PromiseKeptExactlyWhen(site, f, pulls, 0);
    HeadCount(f, pulls);
  }

  lemma PassKeepsOwed(site: Site, f: Forge, pulls: seq<Pull>)
    requires f.tickets == [] && AllOwed(f, pulls)
    ensures AllOwed(RestorePending(site, f, pulls, 0).0, pulls)
  {
    PassEnqueues(site, f, pulls, 0);
    forall i | 0 <= i < |pulls| ensures Owed(RestorePending(site, f, pulls, 0).0, pulls[i]) {
      assert Owed(f, pulls[i]);
    }
  }

  function HeadKeys(pulls: seq<Pull>): set<Q.HeadKey> {
    set i | 0 <= i < |pulls| :: Key(pulls[i])
  }

  lemma HeadCount(f: Forge, pulls: seq<Pull>)
    requires HeadsDiffer(pulls) && forall i :: 0 <= i < |pulls| ==> Due(f, pulls[i])
    ensures |DueHeads(f, pulls)| == |pulls|
  {
    KeyCount(pulls);
    assert DueHeads(f, pulls) == HeadKeys(pulls);
  }

  lemma {:induction false} KeyCount(pulls: seq<Pull>)
    requires HeadsDiffer(pulls)
    ensures |HeadKeys(pulls)| == |pulls|
  {
    if pulls != [] {
      var init, last := pulls[..|pulls| - 1], pulls[|pulls| - 1];
      KeyCount(init);
      assert HeadKeys(pulls) == HeadKeys(init) + {Key(last)};
    }
  }

  // ---- Two runs that leave a head out ----

  function Digit(n: nat): char
    requires n < 16
  {
    "0123456789abcdef"[n]
  }

  /** The `n`th of 4096 object ids. */
  function Id(n: nat): string
    requires n < 4096
  {
    seq(37, _ => '1') + [Digit(n / 256), Digit(n / 16 % 16), Digit(n % 16)]
  }

  lemma DigitsDiffer(a: nat, b: nat)
    requires a < 16 && b < 16 && Digit(a) == Digit(b)
    ensures a == b
  {
  }

  lemma IdsDiffer(a: nat, b: nat)
    requires a < 4096 && b < 4096 && Id(a) == Id(b)
    ensures a == b
  {
    assert Id(a)[37] == Id(b)[37] && Id(a)[38] == Id(b)[38] && Id(a)[39] == Id(b)[39];
    DigitsDiffer(a / 256, b / 256);
    DigitsDiffer(a / 16 % 16, b / 16 % 16);
    DigitsDiffer(a % 16, b % 16);
    Places(a);
    Places(b);
  }

  lemma Places(n: nat)
    ensures n == 256 * (n / 256) + 16 * (n / 16 % 16) + n % 16
  {
    assert n / 16 == 16 * (n / 256) + n / 16 % 16;
  }

  lemma IdIsObjectId(n: nat)
    requires n < 4096
    ensures IsObjectId(Id(n)) && Id(n) != ZERO_OID
  {
    assert Id(n)[0] == '1' && ZERO_OID[0] == '0';
  }

  const WORKING := Env(Some("main"), On, true, None, {}, true, true, true, true, true)

  function PullFor(branch: string, head: string): Pull {
    Pull("alice", "jeryu", branch, head, true, WORKING, ("", ""))
  }

  /** Each of them on a branch named like its head. */
  function Many(n: nat): seq<Pull>
    requires n <= 4096
  {
    seq(n, i requires 0 <= i < n => PullFor(Id(i), Id(i)))
  }

  /** A branch whose second letter is this digit is in no class that is skipped. */
  lemma NotSkipped(branch: string)
    requires |branch| >= 2 && branch[1] == '1'
    ensures !SkippedBranch(branch, true)
  {
  }

  lemma ManyPlain(n: nat)
    requires n <= 4096
    ensures AllPlain(Many(n)) && HeadsDiffer(Many(n))
  {
    forall i | 0 <= i < n ensures Plain(Many(n)[i]) {
      IdIsObjectId(i);
      NotSkipped(Id(i));
    }
    forall i, j | 0 <= i < j < n ensures Key(Many(n)[i]) != Key(Many(n)[j]) {
      if Id(i) == Id(j) {
        IdsDiffer(i, j);
      }
    }
  }

  /** Main result: 513 pull requests on as many branches, and one of them ends the
      run pending and without a ticket, since each ticket restored after the 512th
      takes the place of one restored before. */
  lemma OneTooMany(site: Site) returns (i: nat)
    ensures i < 513
    ensures
      var f, pull := After(site, Run(Many(513))), Many(513)[i];
      Owed(f, pull) && Key(pull) !in Keys(f.tickets)
  {
    ManyPlain(513);
    RunServesExactlyWhen(site, Many(513));
    i :| 0 <= i < |Many(513)| && Key(Many(513)[i]) !in Keys(After(site, Run(Many(513))).tickets);
  }

  /** Two pull requests, from two forks, whose branches have one name. */
  function TwoOfOneName(): seq<Pull> {
    [PullFor("patch", Id(0)), PullFor("patch", Id(1))]
  }

  /** Main result: one of two pull requests whose branches have one name ends the run
      pending and without a ticket. */
  lemma OneOfTwo(site: Site) returns (i: nat)
    ensures i < 2
    ensures
      var f, pull := After(site, Run(TwoOfOneName())), TwoOfOneName()[i];
      Owed(f, pull) && Key(pull) !in Keys(f.tickets)
  {
    var pulls := TwoOfOneName();
    TwoPlain();
    RunServesExactlyWhen(site, pulls);
    assert SameBranch(pulls[0], pulls[1]);
    i :| 0 <= i < |pulls| && Key(pulls[i]) !in Keys(After(site, Run(pulls)).tickets);
  }

  lemma TwoPlain()
    ensures AllPlain(TwoOfOneName()) && HeadsDiffer(TwoOfOneName())
  {
    IdIsObjectId(0);
    IdIsObjectId(1);
    if Id(0) == Id(1) {
      IdsDiffer(0, 1);
    }
    assert "patch"[0] == 'p' && "patch"[1] == 'a' && |"patch"| == 5;
  }
}
