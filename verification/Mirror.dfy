/** The GitHub mirror's catch-up: bring GitHub's branch forward when it is behind,
    create the tags it lacks, and report everything else to a person.

    Pushes are modelled without git's own fast-forward check, so what is proved
    here does not lean on it, and one may reach GitHub and still be reported as
    failed. GitHub's refs do not move on their own between the listing and the end
    of the pass. */
module Mirror {
  import opened Prelude
  import opened Ancestry
  import SplitMatch

  type Name = seq<byte>

  /** `refs/tags/`. */
  const TAGS: Name := [114, 101, 102, 115, 47, 116, 97, 103, 115, 47]

  class Github {
    var refs: map<Name, Oid>

    constructor (refs: map<Name, Oid>)
      ensures this.refs == refs
    {
      this.refs := refs;
    }

    method Push(oid: Oid, name: Name, reply: Reply) returns (ok: bool)
      modifies this
      ensures refs == if reply.Refused? then old(refs) else old(refs)[name := oid]
      ensures ok <==> reply.Done?
    {
      if !reply.Refused? {
        refs := refs[name := oid];
      }
      ok := reply.Done?;
    }
  }

  // ---- Tags ----

  /** What becomes of one tag in one pass. */
  datatype Fate = Ignored | Pushed | Present | Drifted(forgeOid: Option<Oid>, githubOid: Option<Oid>)

  datatype Drift = Drift(tag: Name, forgeOid: Option<Oid>, githubOid: Option<Oid>)

  datatype TagOutcome = TagOutcome(pushed: seq<Name>, present: seq<Name>, drift: seq<Drift>)

  function Lookup(refs: map<Name, Oid>, name: Name): Option<Oid> {
    if name in refs then Some(refs[name]) else None
  }

  /** One pass: the forge's tags, the refs GitHub listed, the tags named if any
      were, the patterns excluded, and how each push ends. */
  datatype Pass = Pass(
    forge: map<Name, Oid>, remote: map<Name, Oid>, only: Option<seq<Name>>, exclude: seq<Name>, replies: Name -> Reply)
  {
    ghost predicate Wants(tag: Name) {
      (only.None? || tag in only.value) && !SplitMatch.Excluded(exclude, tag)
    }

    ghost function Fate(tag: Name): Fate {
      var ours, theirs := Lookup(forge, tag), Lookup(remote, TAGS + tag);
      if !Wants(tag) || (ours.None? && theirs.None?) then Ignored
      else if ours.Some? && ours == theirs then Present
      else if ours.Some? && theirs.None? && replies(tag).Done? then Pushed
      else Drifted(ours, theirs)
    }

    /** The tag is one GitHub lacks, and its push reaches GitHub, reported or not. */
    ghost predicate Lands(tag: Name) {
      Wants(tag) && tag in forge && TAGS + tag !in remote && !replies(tag).Refused?
    }

    /** Every tag of the forge or of GitHub. */
    ghost function Tags(): iset<Name> {
      iset t: Name | t in forge || TAGS + t in remote
    }
  }

  function DriftTags(drift: seq<Drift>): seq<Name> {
    seq(|drift|, i requires 0 <= i < |drift| => drift[i].tag)
  }

  /** `outcome` files exactly the tags in `done`, each once, under its fate. */
  ghost predicate Files(outcome: TagOutcome, done: iset<Name>, pass: Pass) {
    && (forall t :: multiset(outcome.pushed)[t] == if t in done && pass.Fate(t).Pushed? then 1 else 0)
    && (forall t :: multiset(outcome.present)[t] == if t in done && pass.Fate(t).Present? then 1 else 0)
    && (forall t :: multiset(DriftTags(outcome.drift))[t] == if t in done && pass.Fate(t).Drifted? then 1 else 0)
    && (forall d :: d in outcome.drift ==> pass.Fate(d.tag) == Drifted(d.forgeOid, d.githubOid))
  }

  function Filed(outcome: TagOutcome, tag: Name, fate: Fate): TagOutcome {
    match fate
    case Ignored => outcome
    case Pushed => outcome.(pushed := outcome.pushed + [tag])
    case Present => outcome.(present := outcome.present + [tag])
    case Drifted(f, g) => outcome.(drift := outcome.drift + [Drift(tag, f, g)])
  }

  lemma FilingOne(outcome: TagOutcome, done: iset<Name>, pass: Pass, tag: Name)
    requires Files(outcome, done, pass) && tag !in done
    ensures Files(Filed(outcome, tag, pass.Fate(tag)), done + iset{tag}, pass)
  {
    var r := Filed(outcome, tag, pass.Fate(tag));
    assert multiset(outcome.pushed + [tag]) == multiset(outcome.pushed) + multiset{tag};
    assert multiset(outcome.present + [tag]) == multiset(outcome.present) + multiset{tag};
    if pass.Fate(tag).Drifted? {
      assert DriftTags(r.drift) == DriftTags(outcome.drift) + [tag];
    }
  }

  lemma NothingFiled(pass: Pass)
    ensures Files(TagOutcome([], [], []), iset{}, pass)
  {
    assert DriftTags([]) == [];
  }

  /** GitHub's refs after the tags in `done` met their fate: what it had stays,
      and what is new is exactly the tags that land, at the forge's commits. */
  ghost predicate Pushes(after: map<Name, Oid>, done: iset<Name>, pass: Pass) {
    && (forall n :: n in pass.remote ==> n in after && after[n] == pass.remote[n])
    && (forall t :: t in done && pass.Lands(t) ==> TAGS + t in after && after[TAGS + t] == pass.forge[t])
    && (forall n :: n in after && n !in pass.remote ==>
          TAGS <= n && n[|TAGS|..] in done && pass.Lands(n[|TAGS|..]))
  }

  lemma PushingOne(before: map<Name, Oid>, after: map<Name, Oid>, done: iset<Name>, pass: Pass, tag: Name)
    requires Pushes(before, done, pass) && tag !in done
    requires after == if pass.Lands(tag) then before[TAGS + tag := pass.forge[tag]] else before
    ensures Pushes(after, done + iset{tag}, pass)
  {
    assert (TAGS + tag)[|TAGS|..] == tag;
    forall t | t in done && pass.Lands(t)
      ensures TAGS + t in after && after[TAGS + t] == pass.forge[t]
    {
      assert (TAGS + t)[|TAGS|..] == t;
    }
  }

  method Wanted(only: Option<seq<Name>>, exclude: seq<Name>, tag: Name) returns (wanted: bool)
    ensures wanted <==> (only.None? || tag in only.value) && !SplitMatch.Excluded(exclude, tag)
  {
    var excluded := SplitMatch.TagExcluded(exclude, tag);
    wanted := (only.None? || tag in only.value) && !excluded;
  }

  /** One tag of the forge. */
  method FileForgeTag(github: Github, pass: Pass, outcome: TagOutcome, tag: Name) returns (filed: TagOutcome)
    requires tag in pass.forge
    modifies github
    ensures filed == Filed(outcome, tag, pass.Fate(tag))
    ensures github.refs == if pass.Lands(tag) then old(github.refs)[TAGS + tag := pass.forge[tag]] else old(github.refs)
  {
    var ours, theirs := pass.forge[tag], Lookup(pass.remote, TAGS + tag);
    var wanted := Wanted(pass.only, pass.exclude, tag);
    if !wanted {
      return outcome;
    }
    if theirs == Some(ours) {
      return outcome.(present := outcome.present + [tag]);
    }
    if theirs.Some? {
      return outcome.(drift := outcome.drift + [Drift(tag, Some(ours), theirs)]);
    }
    var pushed := github.Push(ours, TAGS + tag, pass.replies(tag));
    if pushed {
      return outcome.(pushed := outcome.pushed + [tag]);
    }
    return outcome.(drift := outcome.drift + [Drift(tag, Some(ours), None)]);
  }

  /** Main result, tags: one pass files every tag of forge or GitHub exactly once
      or, when it is not about it, not at all; it pushes exactly the tags GitHub
      lacks, and leaves every ref GitHub already had as it was. */
  method TagPass(github: Github, pass: Pass) returns (outcome: TagOutcome)
    requires pass.remote == github.refs
    modifies github
    ensures Files(outcome, pass.Tags(), pass)
    ensures Pushes(github.refs, pass.Tags(), pass)
  {
    outcome := TagOutcome([], [], []);
    var todo := pass.forge.Keys;
    ghost var done: iset<Name> := iset{};
    NothingFiled(pass);
    while todo != {}
      invariant forall t :: t in todo ==> t in pass.forge && t !in done
      invariant forall t :: t in done || t in todo <==> t in pass.forge
      invariant Files(outcome, done, pass) && Pushes(github.refs, done, pass)
      decreases |todo|
    {
      var tag :| tag in todo;
      todo := todo - {tag};
      FilingOne(outcome, done, pass, tag);
      ghost var before := github.refs;
      outcome := FileForgeTag(github, pass, outcome, tag);
      PushingOne(before, github.refs, done, pass, tag);
      done := done + iset{tag};
    }
    outcome := GithubOnlyTags(pass, outcome, done);
    AllPushed(github.refs, done, pass);
  }

  lemma AllPushed(after: map<Name, Oid>, done: iset<Name>, pass: Pass)
    requires Pushes(after, done, pass) && forall t :: t in done <==> t in pass.forge
    ensures Pushes(after, pass.Tags(), pass)
  {
  }

  /** `done` is the forge's tags and those of GitHub's names not left `todo`. */
  ghost predicate Covered(done: iset<Name>, todo: set<Name>, pass: Pass) {
    forall t: Name :: t in done <==> t in pass.forge || (TAGS + t in pass.remote && TAGS + t !in todo)
  }

  lemma CoveringOne(done: iset<Name>, todo: set<Name>, pass: Pass, name: Name)
    requires Covered(done, todo, pass) && name in todo && name in pass.remote
    ensures TAGS <= name && name[|TAGS|..] !in pass.forge ==>
              name[|TAGS|..] !in done && Covered(done + iset{name[|TAGS|..]}, todo - {name}, pass)
    ensures !(TAGS <= name) || name[|TAGS|..] in pass.forge ==> Covered(done, todo - {name}, pass)
  {
    assert TAGS <= name ==> TAGS + name[|TAGS|..] == name;
    forall t: Name | TAGS + t == name
      ensures TAGS <= name && name[|TAGS|..] == t
    {
    }
  }

  /** One tag only GitHub has: drift, and nothing is pushed or deleted for it. */
  method FileGithubTag(pass: Pass, filed: TagOutcome, tag: Name) returns (outcome: TagOutcome)
    requires tag !in pass.forge && TAGS + tag in pass.remote
    ensures outcome == Filed(filed, tag, pass.Fate(tag))
  {
    outcome := filed;
    var wanted := Wanted(pass.only, pass.exclude, tag);
    if wanted {
      outcome := outcome.(drift := outcome.drift + [Drift(tag, None, Some(pass.remote[TAGS + tag]))]);
    }
  }

  method GithubOnlyTags(pass: Pass, filed: TagOutcome, ghost forgeTags: iset<Name>) returns (outcome: TagOutcome)
    requires Files(filed, forgeTags, pass) && forall t :: t in forgeTags <==> t in pass.forge
    ensures Files(outcome, pass.Tags(), pass)
  {
    outcome := filed;
    var todo := pass.remote.Keys;
    ghost var done := forgeTags;
    while todo != {}
      invariant todo <= pass.remote.Keys
      invariant Covered(done, todo, pass) && Files(outcome, done, pass)
      decreases |todo|
    {
      var name :| name in todo;
      CoveringOne(done, todo, pass, name);
      todo := todo - {name};
      if TAGS <= name && name[|TAGS|..] !in pass.forge {
        var tag := name[|TAGS|..];
        assert TAGS + tag == name;
        FilingOne(outcome, done, pass, tag);
        outcome := FileGithubTag(pass, outcome, tag);
        done := done + iset{tag};
      }
    }
    assert done == pass.Tags();
  }

  /** No push the pass makes is refused. */
  ghost predicate AllLand(pass: Pass) {
    forall t :: t in pass.forge && TAGS + t !in pass.remote && pass.Wants(t) ==> !pass.replies(t).Refused?
  }

  /** After a pass whose pushes all reached GitHub, reported or not, a second one
      finds every one of those tags present and has nothing to push. */
  lemma SecondPassPushesNothing(pass: Pass, after: map<Name, Oid>, replies: Name -> Reply, tag: Name)
    requires Pushes(after, pass.Tags(), pass) && AllLand(pass)
    ensures
      var second := pass.(remote := after, replies := replies);
      && !second.Fate(tag).Pushed? && !second.Lands(tag)
      && (pass.Lands(tag) ==> second.Fate(tag) == Present)
      && (!pass.Lands(tag) ==> second.Fate(tag) == pass.Fate(tag))
  {
    assert (TAGS + tag)[|TAGS|..] == tag;
    if pass.Lands(tag) {
      assert tag in pass.Tags();
    }
  }

  /** Main result: two passes in a row, whatever happens to the second one's pushes:
      it makes none, and GitHub's refs stay as the first left them. */
  method TwoPasses(github: Github, pass: Pass, replies: Name -> Reply)
    returns (first: TagOutcome, second: TagOutcome, between: map<Name, Oid>)
    requires pass.remote == github.refs && AllLand(pass)
    modifies github
    ensures second.pushed == [] && github.refs == between
    ensures Files(first, pass.Tags(), pass) && Pushes(between, pass.Tags(), pass)
  {
    first := TagPass(github, pass);
    between := github.refs;
    var again := pass.(remote := between, replies := replies);
    second := TagPass(github, again);
    forall t ensures !again.Fate(t).Pushed? && !again.Lands(t) {
      SecondPassPushesNothing(pass, between, replies, t);
    }
    NothingPushed(second, again);
    NothingLanded(github.refs, again);
  }

  lemma NothingPushed(outcome: TagOutcome, pass: Pass)
    requires Files(outcome, pass.Tags(), pass) && forall t :: !pass.Fate(t).Pushed?
    ensures outcome.pushed == []
  {
    NoneIn(outcome.pushed);
  }

  lemma NoneIn(names: seq<Name>)
    requires forall t :: multiset(names)[t] == 0
    ensures names == []
  {
    if names != [] {
      HoldsFirst(names);
    }
  }

  lemma HoldsFirst(names: seq<Name>)
    requires names != []
    ensures multiset(names)[names[0]] > 0
  {
    assert names[0] in multiset(names);
  }

  lemma NothingLanded(after: map<Name, Oid>, pass: Pass)
    requires Pushes(after, pass.Tags(), pass) && forall t :: !pass.Lands(t)
    ensures after == pass.remote
  {
  }

  /** What GitHub holds under `name` once a pass is over. */
  ghost function Left(pass: Pass, name: Name): Option<Oid> {
    if TAGS <= name && pass.Lands(name[|TAGS|..]) then Lookup(pass.forge, name[|TAGS|..])
    else Lookup(pass.remote, name)
  }

  lemma PushesExactly(after: map<Name, Oid>, pass: Pass, name: Name)
    requires Pushes(after, pass.Tags(), pass)
    ensures Lookup(after, name) == Left(pass, name)
  {
    if TAGS <= name {
      assert TAGS + name[|TAGS|..] == name;
    }
  }

  // ---- The branch ----

  /** `refs/heads/`. */
  const HEADS: Name := [114, 101, 102, 115, 47, 104, 101, 97, 100, 115, 47]

  datatype Sync = InSync | Behind | Ahead | Diverged | Unknown

  datatype Report = Report(
    forgeHead: Option<Oid>, githubHead: Option<Oid>, state: Sync, caughtUp: bool, tags: Option<TagOutcome>,
        failed: bool)

  /** Everything a reconcile learns from git: which calls work, what the forge
      holds, and which ancestry questions get an answer. */
  datatype World = World(
    anc: Ancestors, destination: bool, head: Option<Oid>, lists: bool, tags: Option<map<Name, Oid>>,
    exclude: seq<Name>, fetches: bool, answers: (Oid, Oid) -> bool, push: Reply, replies: Name -> Reply)
  {
    /** A question git fails to answer counts as a no. */
    predicate IsAncestor(older: Oid, newer: Oid) {
      answers(older, newer) && anc(older, newer)
    }

    /** The tag pass that goes with this reconcile; no tags are pushed when the
        forge cannot list its own. */
    ghost function TagsOver(refs: map<Name, Oid>): Pass {
      Pass(if tags.Some? then tags.value else map[], refs, None, exclude, replies)
    }

    /** Nothing can be said about the branch. */
    ghost predicate Blind(listed: Option<Oid>) {
      !destination || !lists || head.None? || (listed.Some? && listed != head && !fetches)
    }

    /** The forge's head is pushed: GitHub has nothing, or is known to be behind. */
    ghost predicate Pushes(listed: Option<Oid>) {
      && !Blind(listed) && listed != head && (listed.None? || IsAncestor(listed.value, head.value))
    }
  }

  /** How the forge's head stands to what GitHub holds. */
  ghost function Standing(anc: Ancestors, ours: Oid, theirs: Option<Oid>): Sync {
    if theirs == Some(ours) then InSync
    else if theirs.None? || anc(theirs.value, ours) then Behind
    else if anc(ours, theirs.value) then Ahead
    else Diverged
  }

  /** GitHub's refs after a reconcile: the tag pass, and the forge's head on the
      branch when its push reached GitHub. */
  ghost predicate Holds(after: map<Name, Oid>, before: map<Name, Oid>, branch: Name, world: World) {
    forall n :: Lookup(after, n) ==
                if n == HEADS + branch && world.Pushes(Lookup(before, n)) && !world.push.Refused? then world.head
                else if !world.destination || !world.lists then Lookup(before, n)
                else Left(world.TagsOver(before), n)
  }

  /** What the report says, given what GitHub listed for the branch: how the forge
      stands to what GitHub holds, as far as git has answered. */
  ghost predicate Honest(report: Report, world: World, listed: Option<Oid>) {
    var known := if report.caughtUp then world.head else listed;
    && (report.state.Unknown? <==> world.Blind(listed))
    && (report.caughtUp <==> world.Pushes(listed) && world.push.Done?)
    && (report.state.InSync? <==> !world.Blind(listed) && known == world.head)
    && (report.failed <==> report.state.Unknown? || report.state.Behind?)
    && (report.state.Unknown? || report.state.Diverged? || report.state == Standing(world.anc, world.head.value, known))
    && (report.state.Diverged? <==>
          !world.Blind(listed) && listed.Some? && listed != world.head
          && !world.IsAncestor(listed.value, world.head.value) && !world.IsAncestor(world.head.value, listed.value))
  }

  method ReconcileTags(github: Github, world: World) returns (tags: Option<TagOutcome>)
    modifies github
    ensures forall n :: Lookup(github.refs, n) == Left(world.TagsOver(old(github.refs)), n)
    ensures tags.Some? <==> world.tags.Some?
    ensures tags.Some? ==> Files(tags.value, world.TagsOver(old(github.refs)).Tags(), world.TagsOver(old(github.refs)))
  {
    if world.tags.None? {
      return None;
    }
    var pass := Pass(world.tags.value, github.refs, None, world.exclude, world.replies);
    var outcome := TagPass(github, pass);
    forall n
      ensures Lookup(github.refs, n) == Left(pass, n)
    {
      PushesExactly(github.refs, pass, n);
    }
    return Some(outcome);
  }

  method ReconcileBranch(github: Github, name: Name, world: World, known: Report) returns (report: Report)
    requires world.destination && world.lists && world.head.Some?
    requires known.state.Unknown? && !known.caughtUp && known.failed && known.githubHead == Lookup(github.refs, name)
    requires known.githubHead.Some? ==> AtMostOneWay(world.anc, known.githubHead.value, world.head.value)
    modifies github
    ensures github.refs == if world.Pushes(known.githubHead) && !world.push.Refused?
                           then old(github.refs)[name := world.head.value] else old(github.refs)
    ensures Honest(report, world, known.githubHead)
    ensures report.tags == known.tags && report.forgeHead == known.forgeHead && report.githubHead == known.githubHead
  {
    var ours := world.head.value;
    report := known;
    if known.githubHead.None? {
      report := CatchUp(github, name, world, known);
      return;
    }
    var theirs := known.githubHead.value;
    if theirs == ours {
      report := report.(state := InSync, failed := false);
      return;
    }
    if !world.fetches {
      return;
    }
    if world.IsAncestor(theirs, ours) {
      report := CatchUp(github, name, world, known);
      return;
    }
    report := report.(state := if world.IsAncestor(ours, theirs) then Ahead else Diverged, failed := false);
  }

  predicate AtMostOneWay(anc: Ancestors, a: Oid, b: Oid) {
    anc(a, b) && anc(b, a) ==> a == b
  }

  /** Push the forge's head to the branch. */
  method CatchUp(github: Github, name: Name, world: World, known: Report) returns (report: Report)
    requires world.head.Some? && !known.caughtUp && known.failed
    modifies github
    ensures github.refs == if world.push.Refused? then old(github.refs) else old(github.refs)[name := world.head.value]
    ensures report == if world.push.Done? then known.(state := InSync, caughtUp := true, failed := false)
                      else known.(state := Behind)
  {
    var pushed := github.Push(world.head.value, name, world.push);
    report := if pushed then known.(caughtUp := true, state := InSync, failed := false) else known.(state := Behind);
  }

  /** Main result, branch: GitHub's branch changes only to a descendant of the
      head it listed, everything else changes by the tag pass alone, and the report
      says how the forge stands to what GitHub holds, as far as git has answered. */
  method Reconcile(github: Github, branch: Name, world: World) returns (report: Report)
    requires IsDag(world.anc)
    modifies github
    ensures Holds(github.refs, old(github.refs), branch, world)
    ensures Honest(report, world, Lookup(old(github.refs), HEADS + branch))
    ensures report.forgeHead == if world.destination then world.head else None
    ensures report.githubHead ==
            if world.destination && world.lists then Lookup(old(github.refs), HEADS + branch) else None
    ensures report.tags.Some? <==> world.destination && world.lists && world.tags.Some?
    ensures report.tags.Some? ==>
              var pass := world.TagsOver(old(github.refs)); Files(report.tags.value, pass.Tags(), pass)
  {
    report := Report(None, None, Unknown, false, None, true);
    if !world.destination {
      return;
    }
    report := report.(forgeHead := world.head);
    if !world.lists {
      return;
    }
    var name := HEADS + branch;
    report := report.(githubHead := Lookup(github.refs, name));
    var tags := ReconcileTags(github, world);
    report := report.(tags := tags);
    if world.head.None? {
      return;
    }
    BranchIsNoTag(branch);
    report := ReconcileBranch(github, name, world, report);
  }

  lemma BranchIsNoTag(branch: Name)
    ensures !(TAGS <= HEADS + branch)
  {
    assert (HEADS + branch)[5] == 104;
  }

  /** Every ancestry between the two heads is found out. */
  ghost predicate Answered(world: World, listed: Option<Oid>)
    requires world.head.Some?
  {
    listed.Some? && listed != world.head ==>
      && (world.anc(listed.value, world.head.value) ==> world.answers(listed.value, world.head.value))
      && (world.anc(world.head.value, listed.value) ==> world.answers(world.head.value, listed.value))
  }

  /** The report is exactly how the forge stands to what GitHub now holds if and only
      if no push was lost on the way back and every ancestry between the two heads
      was found out. */
  lemma ExactlyWhenAnswered(report: Report, world: World, branch: Name, before: map<Name, Oid>, after: map<Name, Oid>)
    requires IsDag(world.anc) && Holds(after, before, branch, world)
    requires Honest(report, world, Lookup(before, HEADS + branch)) && !world.Blind(Lookup(before, HEADS + branch))
    ensures
      var listed := Lookup(before, HEADS + branch);
      report.state == Standing(world.anc, world.head.value, Lookup(after, HEADS + branch)) <==>
      !(world.Pushes(listed) && world.push.Lost?) && Answered(world, listed)
  {
    var listed := Lookup(before, HEADS + branch);
    BranchIsNoTag(branch);
    assert Lookup(after, HEADS + branch) ==
           if world.Pushes(listed) && !world.push.Refused? then world.head else listed;
    if listed.Some? {
      assert AtMostOneWay(world.anc, listed.value, world.head.value);
    }
  }

  /** The branch never goes back: what it names afterwards is what was listed, or
      the forge's head when that is a descendant or there was nothing. */
  lemma BranchOnlyGoesForward(world: World, branch: Name, before: map<Name, Oid>, after: map<Name, Oid>)
    requires Holds(after, before, branch, world)
    ensures
      var old', new' := Lookup(before, HEADS + branch), Lookup(after, HEADS + branch);
      new' == old'
          || (new' == world.head && world.head.Some? && (old'.None? || world.anc(old'.value, world.head.value)))
  {
    BranchIsNoTag(branch);
    assert Lookup(after, HEADS + branch) ==
           if world.Pushes(Lookup(before, HEADS + branch)) && !world.push.Refused? then world.head
           else Lookup(before, HEADS + branch);
  }
}
