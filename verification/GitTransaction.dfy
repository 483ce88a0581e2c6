/** The config-write transaction (src/config_write.py:115-217, 587-637).

    Every git command may succeed, fail, or be killed by its timeout with or without having taken
    effect. For every combination the outcome of `ApplyPlacement` is characterised: committed on
    both sides, rolled back on all, or neither, and exactly when. */
module GitTransaction {
  import opened Basics

  type Path = string
  type Bytes = string
  type Tree = map<Path, Bytes>

  const WRITE_BRANCH: string := "main"

  /** A commit is new: no two have the same `id`, whatever their trees. */
  datatype Commit = Commit(id: nat, tree: Tree)

  function Head(history: seq<Commit>): Tree
    requires history != []
  {
    history[|history|-1].tree
  }

  /** `Fails` is a non-zero exit and `Raises` a timeout (or a lost process). Either way the command may
      have taken effect all the same, as a push does whose connection is lost before the report. */
  datatype Outcome = Ok | Fails(took: bool) | Raises(took: bool)

  predicate TookEffect(o: Outcome) { o.Ok? || o.took }

  /** What each command of one transaction will do. */
  datatype Faults = Faults(
    branch: Outcome, status: Outcome, statusAgain: Outcome, head: Outcome, add: Outcome, commit: Outcome,
    resetCommit: Outcome, push: Outcome, resetPush: Outcome, headAgain: Outcome)

  /** What rewriting the file comes to; a failing edit may leave any bytes behind. */
  datatype FileEdit = EditRaises(left: Bytes) | Unchanged | Rewritten(bytes: Bytes)

  /** `Crashed` is an exception other than the module's own, raised before the file is touched. */
  datatype Ending = Success(changed: bool) | Refused(status: nat) | Crashed

  predicate IsDirty(work: Tree, index: Tree, head: Tree, p: Path) {
    !(Get(work, p) == Get(index, p) && Get(index, p) == Get(head, p))
  }

  function Get(t: Tree, p: Path): Option<Bytes> { if p in t then Some(t[p]) else None }

  function Dirty(work: Tree, index: Tree, head: Tree): set<Path> {
    set p | p in work.Keys + index.Keys + head.Keys && IsDirty(work, index, head, p)
  }

  lemma CleanTreesAgree(work: Tree, index: Tree, head: Tree, only: set<Path>)
    requires Dirty(work, index, head) <= only
    ensures forall p :: p !in only ==> Get(work, p) == Get(index, p) == Get(head, p)
  {
    forall p | p !in only ensures Get(work, p) == Get(index, p) == Get(head, p) {
      if p in work.Keys + index.Keys + head.Keys { assert p !in Dirty(work, index, head); }
    }
  }

  lemma TreesEqual(a: Tree, b: Tree)
    requires forall p :: Get(a, p) == Get(b, p)
    ensures a == b
  {
    forall p ensures p in a <==> p in b { assert Get(a, p) == Get(b, p); }
    forall p | p in a ensures a[p] == b[p] { assert Get(a, p) == Get(b, p); }
  }

  // ------------------------------------------------------- when it breaks

  /** The commands up to `git add` went well: a commit will be tried. */
  predicate Prepared(f: Faults) { f.statusAgain.Ok? && f.head.Ok? && f.add.Ok? }

  /** The patterns of failure the transaction does not survive: a commit that was made although its
      command was killed, or although it failed and the reset has no effect; a push that was killed;
      a failed push that did reach the remote, or whose reset has no effect; and a successful push
      whose last `rev-parse` does not answer. */
  predicate Breaks(f: Faults) {
    || (f.commit.Raises? && f.commit.took)
    || (f.commit.Fails? && f.commit.took && !TookEffect(f.resetCommit))
    || (f.commit.Ok? && f.push.Raises?)
    || (f.commit.Ok? && f.push.Fails? && (f.push.took || !TookEffect(f.resetPush)))
    || (f.commit.Ok? && f.push.Ok? && !f.headAgain.Ok?)
  }

  /** Every command from the commit on went well. */
  predicate Pushed(f: Faults) { f.commit.Ok? && f.push.Ok? && f.headAgain.Ok? }

  /** The edit reaches the index, though `git add` may report failure. */
  predicate Staged(f: Faults) { f.head.Ok? && TookEffect(f.add) }

  /** A `reset --hard` runs and works. */
  predicate Resets(f: Faults) {
    (f.commit.Fails? && TookEffect(f.resetCommit)) || (f.commit.Ok? && f.push.Fails? && TookEffect(f.resetPush))
  }

  /** The new commit is made and not reset away. */
  predicate CommitStays(f: Faults) { TookEffect(f.commit) && !Resets(f) }

  datatype Repo = Repo(work: Tree, index: Tree, local: seq<Commit>, remote: seq<Commit>)

  /** A checkout of tracked files: working tree, index, the commits of `main` here and at the remote. */
  class Checkout {
    const config: Path
    var branch: string
    var work: Tree
    var index: Tree
    var local: seq<Commit>
    var remote: seq<Commit>
    var minted: nat  // how many commits were ever made

    ghost function View(): Repo
      reads this
    {
      Repo(work, index, local, remote)
    }

    ghost predicate Valid()
      reads this
    {
      && local != [] && config in work
      && (forall c <- local :: c.id < minted) && (forall c <- remote :: c.id < minted)
    }

    constructor (config: Path, branch: string, tree: Tree)
      requires config in tree
      ensures Valid() && this.config == config && this.branch == branch
      ensures work == index == tree && local == remote == [Commit(0, tree)]
    {
      this.config, this.branch, work, index := config, branch, tree, tree;
      local, remote, minted := [Commit(0, tree)], [Commit(0, tree)], 1;
    }

    // ---------------------------------------------------------- git commands

    method Add(o: Outcome) returns (ok: bool)
      requires config in work
      modifies this`index
      ensures ok == o.Ok? && index == if TookEffect(o) then old(index)[config := work[config]] else old(index)
    {
      if TookEffect(o) {
        index := index[config := work[config]];
      }
      ok := o.Ok?;
    }

    /** A commit takes the whole index. */
    method MakeCommit(o: Outcome) returns (ok: bool)
      modifies this`local, this`minted
      ensures ok == o.Ok? && minted == old(minted) + 1
      ensures local == if TookEffect(o) then old(local) + [Commit(old(minted), index)] else old(local)
    {
      if TookEffect(o) {
        local := local + [Commit(minted, index)];
      }
      minted := minted + 1;
      ok := o.Ok?;
    }

    /** `reset --hard` to the commit the history of `n` ends in. */
    method ResetHard(n: nat, o: Outcome) returns (ok: bool)
      requires 0 < n <= |local|
      modifies this`local, this`index, this`work
      ensures ok == o.Ok?
      ensures if TookEffect(o) then local == old(local)[..n] && index == work == Head(local)
              else local == old(local) && index == old(index) && work == old(work)
    {
      if TookEffect(o) {
        local := local[..n];
        index, work := Head(local), Head(local);
      }
      ok := o.Ok?;
    }

    method Push(o: Outcome) returns (ok: bool)
      modifies this`remote
      ensures ok == o.Ok? && remote == if TookEffect(o) then local else old(remote)
    {
      if TookEffect(o) {
        remote := local;
      }
      ok := o.Ok?;
    }

    // ------------------------------------------------------- the transaction

    /** No tracked file differs from the last commit, in the tree or in the index. */
    ghost predicate Clean()
      requires local != []
      reads this
    {
      Dirty(work, index, Head(local)) == {}
    }

    /** None when the write may go on. */
    method Preflight(f: Faults) returns (refusal: Option<Ending>)
      requires local != []
      ensures refusal.None? <==> f.branch.Ok? && branch == WRITE_BRANCH && f.status.Ok? && Clean()
      ensures refusal == Some(Crashed) <==>
        f.branch.Raises? || (f.branch.Ok? && branch == WRITE_BRANCH && f.status.Raises?)
      ensures refusal == Some(Refused(500)) <==> f.branch.Ok? && branch == WRITE_BRANCH && f.status.Fails?
      ensures refusal in {None, Some(Crashed), Some(Refused(500)), Some(Refused(409))}
    {
      if !f.branch.Ok? {
        return Some(if f.branch.Fails? then Refused(409) else Crashed);
      }
      if branch != WRITE_BRANCH {
        return Some(Refused(409));
      }
      if !f.status.Ok? {
        return Some(if f.status.Fails? then Refused(500) else Crashed);
      }
      if Dirty(work, index, Head(local)) != {} {
        return Some(Refused(409));
      }
      return None;
    }

    /** None when the commit is pushed, else the status to refuse with. `late` is what others change
        elsewhere in the tree once the second status check has passed. */
    method CommitAndPush(f: Faults, late: Tree) returns (refusal: Option<nat>)
      requires Valid() && config !in late
      modifies this`work, this`index, this`local, this`remote, this`minted
      ensures local != [] && (forall c <- local :: c.id < minted) && (forall c <- remote :: c.id < minted)
      ensures var head, staged := Head(old(local)), old(index)[config := old(work)[config]];
        var made := old(local) + [Commit(old(minted), staged)];
        var checked := f.statusAgain.Ok? && Dirty(old(work), old(index), head) == {config};
        var ready := checked && Prepared(f);
        && refusal == (if ready && Pushed(f) then None else Some(StatusOf(f, checked, ready)))
        && local == (if ready && CommitStays(f) then made else old(local))
        && remote == (if ready && f.commit.Ok? && TookEffect(f.push) then made else old(remote))
        && work == (if ready && Resets(f) then head else if checked then old(work) + late else old(work))
        && index == (if ready && Resets(f) then head else if checked && Staged(f) then staged else old(index))
    {
      if !f.statusAgain.Ok? {
        return Some(500);
      }
      if Dirty(work, index, Head(local)) != {config} {
        return Some(409);
      }
      work := work + late;
      if !f.head.Ok? {
        return Some(500);
      }
      var preHead := |local|;
      var ok := Add(f.add);
      if !ok {
        return Some(500);
      }
      ok := MakeCommit(f.commit);
      if !ok {
        if f.commit.Fails? {
          ok := ResetHard(preHead, f.resetCommit);
        }
        return Some(500);
      }
      refusal := PushCommitted(f, preHead);
    }

    /** The push of the new commit; when it fails, a reset to the history of `preHead`. */
    method PushCommitted(f: Faults, preHead: nat) returns (refusal: Option<nat>)
      requires 0 < preHead <= |local|
      modifies this`work, this`index, this`local, this`remote
      ensures refusal == if f.push.Ok? && f.headAgain.Ok? then None
                         else Some(if f.push.Fails? && !f.resetPush.Raises? then 502 else 500)
      ensures remote == if TookEffect(f.push) then old(local) else old(remote)
      ensures if f.push.Fails? && TookEffect(f.resetPush)
              then local == old(local)[..preHead] && index == work == Head(local)
              else local == old(local) && index == old(index) && work == old(work)
    {
      var ok := Push(f.push);
      if !ok {
        if f.push.Fails? {
          ok := ResetHard(preHead, f.resetPush);
          return Some(if f.resetPush.Raises? then 500 else 502);
        }
        return Some(500);
      }
      return if f.headAgain.Ok? then None else Some(500);
    }

    /** The edit of a clean checkout, its commit and push; any failure writes the original bytes back. */
    method EditAndCommit(f: Faults, edit: FileEdit, stray: Tree, late: Tree) returns (r: Ending)
      requires Valid() && config !in stray && config !in late
      requires work == index == Head(local)
      modifies this`work, this`index, this`local, this`remote, this`minted
      ensures Valid() && View() == Final(config, f, edit, stray, late, old(View()), old(minted))
      ensures r == EndingOf(config, f, edit, stray, old(View()))
    {
      var original := work[config];
      if edit.EditRaises? {
        work := work[config := edit.left];
        work := work[config := original];
        return Refused(500);
      }
      if edit.Unchanged? {
        return Success(false);
      }
      r := CommitEdit(f, edit, stray, late);
    }

    /** The edited file committed and pushed, or its original bytes written back. */
    method CommitEdit(f: Faults, edit: FileEdit, stray: Tree, late: Tree) returns (r: Ending)
      requires Valid() && config !in stray && config !in late && edit.Rewritten?
      requires work == index == Head(local)
      modifies this`work, this`index, this`local, this`remote, this`minted
      ensures Valid() && View() == Final(config, f, edit, stray, late, old(View()), old(minted))
      ensures r == EndingOf(config, f, edit, stray, old(View()))
    {
      ghost var before := View();
      var original := work[config];
      work := work[config := edit.bytes] + stray;
      if Dirty(work, index, Head(local)) == {config} { EditShows(index, work, config); }
      var status := CommitAndPush(f, late);
      if status.None? {
        return Success(true);
      }
      work := work[config := original];
      Restored(before.work, config, edit.bytes, stray);
      Restored(before.work, config, edit.bytes, late);
      return Refused(status.value);
    }

    /** The whole write. `valid` says the placement passed validation; `stray` and `late` are what others
        change elsewhere in the tree before and after the second status check. */
    method ApplyPlacement(valid: bool, f: Faults, edit: FileEdit, stray: Tree, late: Tree) returns (r: Ending)
      requires Valid() && config !in stray && config !in late
      modifies this`work, this`index, this`local, this`remote, this`minted
      ensures Valid()
      ensures var before, after := old(View()), View();
        var cleared := valid && f.branch.Ok? && branch == WRITE_BRANCH && f.status.Ok? && old(Clean());
        var ready := cleared && Ready(config, f, edit, stray, before);
        && (r == Success(true) <==> ready && Pushed(f))
        && (r == Success(false) <==> cleared && edit.Unchanged?)
        && (r == Refused(502) <==> ready && f.commit.Ok? && f.push.Fails? && !f.resetPush.Raises?)
        && (r == Success(true) ==> Persisted(config, before, after, edit.bytes))
        && (r != Success(true) && !(ready && Breaks(f)) ==> RolledBack(config, before, after))
        && (ready && Breaks(f) ==> !Persisted(config, before, after, edit.bytes) && !RolledBack(config, before, after))
        && OnlyTouchesConfig(config, before, after, stray, late)
        && (cleared && Checked(config, f, edit, stray, before) ==>
              LateEditsSurvive(before, after, late, !(ready && Resets(f))))
        && (Clean() <==> if cleared then CleanAgain(config, f, edit, stray, late, before) else old(Clean()))
      ensures var onMain := f.branch.Ok? && branch == WRITE_BRANCH;
        var conflict := !old(Clean()) || Overtaken(config, f, edit, stray, old(View()));
        && (r == Refused(400) <==> !valid)
        && (r == Crashed <==> valid && (f.branch.Raises? || (onMain && f.status.Raises?)))
        && (r == Refused(409) <==> valid && !f.branch.Raises? && (!onMain || (f.status.Ok? && conflict)))
        && (r.Refused? ==> r.status in {400, 409, 500, 502})
    {
      if !valid {
        return Refused(400);
      }
      var refusal := Preflight(f);
      if refusal.Some? {
        return refusal.value;
      }
      ghost var before, id := View(), minted;
      CleanMeans(work, index, Head(local));
      r := EditAndCommit(f, edit, stray, late);
      WriteMeans(config, f, edit, stray, late, before, id);
    }
  }

  // ------------------------------------------------------ what a write leaves

  /** The new tree differs from the last commit in the config file alone at the second status check. */
  ghost predicate Checked(config: Path, f: Faults, edit: FileEdit, stray: Tree, before: Repo)
    requires before.local != []
  {
    && edit.Rewritten? && f.statusAgain.Ok?
    && var head := Head(before.local); Dirty(head[config := edit.bytes] + stray, head, head) == {config}
  }

  /** A commit is tried. */
  ghost predicate Ready(config: Path, f: Faults, edit: FileEdit, stray: Tree, before: Repo)
    requires before.local != []
  {
    Checked(config, f, edit, stray, before) && Prepared(f)
  }

  /** The push was refused, and the reset after it answered. */
  predicate Rejected(f: Faults) { f.commit.Ok? && f.push.Fails? && !f.resetPush.Raises? }

  /** The status a commit or push that does not come through is refused with. */
  function StatusOf(f: Faults, checked: bool, ready: bool): nat {
    if f.statusAgain.Ok? && !checked then 409 else if ready && Rejected(f) then 502 else 500
  }

  /** How a write of a clean checkout ends. */
  ghost function EndingOf(config: Path, f: Faults, edit: FileEdit, stray: Tree, before: Repo): Ending
    requires before.local != []
  {
    match edit
    case EditRaises(_) => Refused(500)
    case Unchanged => Success(false)
    case Rewritten(_) =>
      var ready := Ready(config, f, edit, stray, before);
      if ready && Pushed(f) then Success(true)
      else Refused(StatusOf(f, Checked(config, f, edit, stray, before), ready))
  }

  /** The second status check finds more than the edit, or not even that. */
  ghost predicate Overtaken(config: Path, f: Faults, edit: FileEdit, stray: Tree, before: Repo)
    requires before.local != []
  {
    edit.Rewritten? && f.statusAgain.Ok? && !Checked(config, f, edit, stray, before)
  }

  /** The state a write leaves of a clean checkout. */
  ghost function Final(config: Path, f: Faults, edit: FileEdit, stray: Tree, late: Tree, before: Repo, id: nat): Repo
    requires before.local != []
  {
    var head := Head(before.local);
    if !edit.Rewritten? then before
    else if !Checked(config, f, edit, stray, before) then before.(work := head + stray)
    else
      var tree := head[config := edit.bytes];
      var made := before.local + [Commit(id, tree)];
      var reset := Prepared(f) && Resets(f);
      Repo(if reset then head else if Prepared(f) && Pushed(f) then tree + late else head + late,
           if reset || !Staged(f) then head else tree,
           if Prepared(f) && CommitStays(f) then made else before.local,
           if Prepared(f) && f.commit.Ok? && TookEffect(f.push) then made else before.remote)
  }

  /** One new commit, differing from its parent in the config file only, here and at the remote. */
  ghost predicate Persisted(config: Path, before: Repo, after: Repo, bytes: Bytes)
    requires before.local != []
  {
    && |after.local| == |before.local| + 1 && before.local <= after.local
    && Head(after.local) == Head(before.local)[config := bytes]
    && after.remote == after.local && Get(after.work, config) == Some(bytes)
  }

  /** File, history and remote as before. */
  ghost predicate RolledBack(config: Path, before: Repo, after: Repo) {
    Get(after.work, config) == Get(before.work, config) && after.local == before.local && after.remote == before.remote
  }

  ghost predicate OnlyTouchesConfig(config: Path, before: Repo, after: Repo, stray: Tree, late: Tree) {
    forall p :: p != config ==>
      Get(after.work, p) in {Get(before.work, p), Get(before.work + stray, p), Get(before.work + late, p)}
  }

  /** Edits made elsewhere after the second status check are kept, or all undone. */
  ghost predicate LateEditsSurvive(before: Repo, after: Repo, late: Tree, kept: bool) {
    forall p <- late :: Get(after.work, p) == if kept then Some(late[p]) else Get(before.work, p)
  }

  /** When the next write finds the checkout clean: when others' edits changed nothing, and the edit is
      not left in the index alone; or when a reset wiped all of it away. */
  ghost predicate CleanAgain(config: Path, f: Faults, edit: FileEdit, stray: Tree, late: Tree, before: Repo)
    requires before.local != []
  {
    var head := Head(before.local);
    if !edit.Rewritten? then true
    else if !Checked(config, f, edit, stray, before) then head + stray == head
    else (Prepared(f) && Resets(f)) || (head + late == head && (!Staged(f) || (Prepared(f) && Pushed(f))))
  }

  ghost predicate Settled(config: Path, before: Repo, id: nat) {
    && before.local != [] && before.work == before.index == Head(before.local) && config in before.work
    && (forall c <- before.local :: c.id < id) && (forall c <- before.remote :: c.id < id)
  }

  lemma FinalSettles(config: Path, f: Faults, edit: FileEdit, stray: Tree, late: Tree, before: Repo, id: nat)
    requires Settled(config, before, id) && config !in stray && config !in late
    ensures var after := Final(config, f, edit, stray, late, before, id);
      var ready := Ready(config, f, edit, stray, before);
      && (ready && Pushed(f) ==> Persisted(config, before, after, edit.bytes))
      && (!(ready && Pushed(f)) && !(ready && Breaks(f)) ==> RolledBack(config, before, after))
      && (ready && Breaks(f) ==> !Persisted(config, before, after, edit.bytes) && !RolledBack(config, before, after))
  {
    if Ready(config, f, edit, stray, before) {
      var made := before.local + [Commit(id, Head(before.local)[config := edit.bytes])];
      assert made != before.local && Head(made) == Head(before.local)[config := edit.bytes];
      assert made[|before.local|].id == id && made != before.remote;
      EditShows(before.index, Head(before.local)[config := edit.bytes] + stray, config);
    }
  }

  lemma FinalTouches(config: Path, f: Faults, edit: FileEdit, stray: Tree, late: Tree, before: Repo, id: nat)
    requires Settled(config, before, id) && config !in stray && config !in late
    ensures var after := Final(config, f, edit, stray, late, before, id);
      && OnlyTouchesConfig(config, before, after, stray, late)
      && (Checked(config, f, edit, stray, before) ==>
            LateEditsSurvive(before, after, late, !(Prepared(f) && Resets(f))))
  {}

  lemma FinalIsClean(config: Path, f: Faults, edit: FileEdit, stray: Tree, late: Tree, before: Repo, id: nat)
    requires Settled(config, before, id) && config !in stray && config !in late
    ensures var after := Final(config, f, edit, stray, late, before, id);
      && after.local != []
      && (Dirty(after.work, after.index, Head(after.local)) == {} <==> CleanAgain(config, f, edit, stray, late, before))
  {
    var after, head := Final(config, f, edit, stray, late, before, id), Head(before.local);
    CleanMeans(after.work, after.index, Head(after.local));
    if Checked(config, f, edit, stray, before) {
      var tree := head[config := edit.bytes];
      EditShows(head, tree + stray, config);
      assert Head(before.local + [Commit(id, tree)]) == tree;
      OtherFiles(head, config, edit.bytes, late);
    }
  }

  /** All that the write of a clean checkout promises. */
  lemma WriteMeans(config: Path, f: Faults, edit: FileEdit, stray: Tree, late: Tree, before: Repo, id: nat)
    requires Settled(config, before, id) && config !in stray && config !in late
    ensures var after, r := Final(config, f, edit, stray, late, before, id), EndingOf(config, f, edit, stray, before);
      var ready := Ready(config, f, edit, stray, before);
      && (r == Success(true) <==> ready && Pushed(f))
      && (r == Success(true) ==> Persisted(config, before, after, edit.bytes))
      && (r != Success(true) && !(ready && Breaks(f)) ==> RolledBack(config, before, after))
      && (ready && Breaks(f) ==> !Persisted(config, before, after, edit.bytes) && !RolledBack(config, before, after))
      && OnlyTouchesConfig(config, before, after, stray, late)
      && (Checked(config, f, edit, stray, before) ==> LateEditsSurvive(before, after, late, !(ready && Resets(f))))
      && after.local != []
      && (Dirty(after.work, after.index, Head(after.local)) == {} <==> CleanAgain(config, f, edit, stray, late, before))
    ensures var r := EndingOf(config, f, edit, stray, before);
      && (r == Success(false) <==> edit.Unchanged?)
      && (r == Refused(502) <==>
            Ready(config, f, edit, stray, before) && f.commit.Ok? && f.push.Fails? && !f.resetPush.Raises?)
      && (r == Refused(409) <==> Overtaken(config, f, edit, stray, before))
      && !r.Crashed? && (r.Refused? ==> r.status in {409, 500, 502})
  {
    FinalSettles(config, f, edit, stray, late, before, id);
    FinalTouches(config, f, edit, stray, late, before, id);
    FinalIsClean(config, f, edit, stray, late, before, id);
  }

  lemma OtherFiles(head: Tree, config: Path, bytes: Bytes, late: Tree)
    requires config in head && config !in late
    ensures (head + late)[config] == head[config]
    ensures head[config := bytes] + late == head[config := bytes] <==> head + late == head
  {
    var tree := head[config := bytes];
    if tree + late == tree {
      forall p <- late ensures p in head && late[p] == head[p] { assert (tree + late)[p] == tree[p]; }
      assert head + late == head;
    }
    if head + late == head {
      forall p <- late ensures p in tree && late[p] == tree[p] { assert (head + late)[p] == head[p]; }
      assert tree + late == tree;
    }
  }

  lemma Restored(head: Tree, config: Path, bytes: Bytes, others: Tree)
    requires config in head && config !in others
    ensures (head[config := bytes] + others)[config := head[config]] == head + others
  {}

  lemma CleanMeans(work: Tree, index: Tree, head: Tree)
    ensures Dirty(work, index, head) == {} <==> work == index == head
  {
    if Dirty(work, index, head) == {} {
      CleanTreesAgree(work, index, head, {});
      TreesEqual(work, head);
      TreesEqual(index, head);
    }
  }

  /** When only the config file is dirty against a clean tree, the edit is all that differs. */
  lemma EditShows(clean: Tree, edited: Tree, config: Path)
    requires config in clean && config in edited && Dirty(edited, clean, clean) == {config}
    ensures edited == clean[config := edited[config]] && edited[config] != clean[config]
  {
    CleanTreesAgree(edited, clean, clean, {config});
    TreesEqual(edited, clean[config := edited[config]]);
    assert config in Dirty(edited, clean, clean);
  }
}
