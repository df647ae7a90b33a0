/** Committing a sandbox to its destination (internal/pipeline/extract.go, CommitSandbox), and what a
    crash at any point leaves behind. */
module Commit {
  import opened Outcomes
  import opened Archives

  /** The three directories of a commit; None when one does not exist. */
  datatype Dirs = Dirs(dest: Option<Tree>, sandbox: Option<Tree>, stale: Option<Tree>)

  // ---- Without a crash ----

  /** What CommitSandbox leaves, and whether it succeeds. A missing sandbox fails the second rename. */
  function Committed(d: Dirs): (Dirs, bool) {
    if d.dest.None? then
      if d.sandbox.None? then (d, false) else (Dirs(d.sandbox, None, d.stale), true)
    else
      if d.sandbox.None? then (Dirs(None, None, d.dest), false) else (Dirs(d.sandbox, None, None), true)
  }

  class Volume {
    var dest: Option<Tree>
    var sandbox: Option<Tree>
    var stale: Option<Tree>

    constructor (d: Dirs)
      ensures State() == d
    {
      dest, sandbox, stale := d.dest, d.sandbox, d.stale;
    }

    function State(): Dirs
      reads this
    {
      Dirs(dest, sandbox, stale)
    }

    method CommitSandbox() returns (ok: bool)
      modifies this
      ensures (State(), ok) == Committed(old(State()))
    {
      var existed := dest.Some?;
      if existed {
        stale := None;
        dest, stale := None, dest;
      }
      if sandbox.None? {
        return false;
      }
      dest, sandbox := sandbox, None;
      if existed {
        stale := None;
      }
      return true;
    }
  }

  // ---- Step by step, with crashes ----

  /** The next action of CommitSandbox. */
  datatype Pc = Start | ClearStale | MoveAside | Install | InstallFirst | CleanUp | Done | Failed

  datatype State = State(dirs: Dirs, pc: Pc)

  /** RemoveAll can be stopped anywhere: some part of the tree is left, or nothing. */
  predicate PartOf(t: Option<Tree>, whole: Option<Tree>) {
    t.Some? ==> whole.Some? && forall p :: p in t.value ==> p in whole.value && t.value[p] == whole.value[p]
  }

  /** One atomic action. Renames are atomic; RemoveAll is not. Any action may fail with an I/O error.
      After a crash the commit may be started again, as long as the sandbox is still there. */
  predicate Step(s: State, t: State) {
    || (s.pc.Start? && t == s.(pc := if s.dirs.dest.Some? then ClearStale else InstallFirst))
    || ((s.pc.ClearStale? || s.pc.CleanUp?) && Removes(s, t))
    || (s.pc.ClearStale? && s.dirs.stale.None? && t == s.(pc := MoveAside))
    || (s.pc.MoveAside? && t == State(Dirs(None, s.dirs.sandbox, s.dirs.dest), Install))
    || ((s.pc.Install? || s.pc.InstallFirst?) && s.dirs.sandbox.Some?
        && t == State(Dirs(s.dirs.sandbox, None, s.dirs.stale), if s.pc.Install? then CleanUp else Done))
    || ((s.pc.Install? || s.pc.InstallFirst?) && s.dirs.sandbox.None? && t == s.(pc := Failed))
    || (s.pc.CleanUp? && s.dirs.stale.None? && t == s.(pc := Done))
    || (!s.pc.Done? && t == s.(pc := Failed))
    || (s.dirs.sandbox.Some? && t == s.(pc := Start))
  }

  predicate Removes(s: State, t: State) {
    t == s.(dirs := s.dirs.(stale := t.dirs.stale)) && PartOf(t.dirs.stale, s.dirs.stale)
  }

  predicate IsRun(run: seq<State>, d: Dirs) {
    && run != [] && run[0] == State(d, Start)
    && forall i :: 0 <= i < |run| - 1 ==> Step(run[i], run[i + 1])
  }

  // ---- What every crash point has ----

  /** Nothing is moved yet. */
  predicate Untouched(d: Dirs, d0: Dirs) {
    d.dest == d0.dest && d.sandbox == d0.sandbox
  }

  /** Between the two renames. */
  predicate Between(d: Dirs, d0: Dirs) {
    d0.dest.Some? && d.dest.None? && d.stale == d0.dest && d.sandbox == d0.sandbox
  }

  predicate Installed(d: Dirs, d0: Dirs) {
    d.dest == d0.sandbox && d.sandbox.None?
  }

  predicate Inv(s: State, d0: Dirs) {
    && d0.sandbox.Some?
    && (Untouched(s.dirs, d0) || Between(s.dirs, d0) || Installed(s.dirs, d0))
    && (s.pc.Start? ==> s.dirs.sandbox.Some?)
    && (s.pc.ClearStale? ==> Untouched(s.dirs, d0) && d0.dest.Some?)
    && (s.pc.MoveAside? ==> Untouched(s.dirs, d0) && d0.dest.Some?)
    && (s.pc.Install? ==> Between(s.dirs, d0))
    && (s.pc.InstallFirst? ==> Between(s.dirs, d0) || (Untouched(s.dirs, d0) && d0.dest.None?))
    && (s.pc.CleanUp? || s.pc.Done? ==> Installed(s.dirs, d0))
  }

  lemma {:induction false} RunInv(run: seq<State>, d: Dirs, i: nat)
    requires IsRun(run, d) && d.sandbox.Some? && i < |run|
    ensures Inv(run[i], d)
  {
    if i > 0 {
      RunInv(run, d, i - 1);
      assert Step(run[i - 1], run[i]);
    }
  }

  /** Crash safety, however often the commit is started again: the new tree is always whole in the
      sandbox or at the destination; until it is whole at the destination, the old tree is whole there
      or on the stale path; and the destination never holds anything but one of the two trees. */
  lemma CrashSafe(run: seq<State>, d: Dirs, i: nat)
    requires IsRun(run, d) && d.sandbox.Some? && i < |run|
    ensures var at := run[i].dirs;
      && (at.sandbox == d.sandbox || at.dest == d.sandbox)
      && (d.dest.Some? && at.dest != d.sandbox ==> at.dest == d.dest || at.stale == d.dest)
      && (at.dest == d.dest || at.dest == d.sandbox || (at.dest.None? && at.stale == d.dest))
      && (run[i].pc.Done? ==> at.dest == d.sandbox)
  {
    RunInv(run, d, i);
  }

  /** After a crash anywhere, a retry installs the new tree exactly when the sandbox is still there:
      before the second rename. After it, the retry moves the new tree to the stale path and fails. */
  lemma RetryAfterCrash(run: seq<State>, d: Dirs, i: nat)
    requires IsRun(run, d) && d.sandbox.Some? && i < |run|
    ensures var (after, ok) := Committed(run[i].dirs);
      && (ok <==> run[i].dirs.sandbox.Some?)
      && (after.dest == d.sandbox <==> run[i].dirs.sandbox.Some?)
      && (!ok ==> after == Dirs(None, None, d.sandbox))
  {
    RunInv(run, d, i);
  }

  /** What a run without restarts does to the stale path. */
  predicate StaleInv(s: State, d0: Dirs) {
    && ((s.pc.Start? || s.pc.InstallFirst?) ==> s.dirs == d0)
    && (s.pc.InstallFirst? ==> d0.dest.None?)
    && (s.pc.MoveAside? ==> s.dirs.stale.None?)
    && (s.pc.Done? ==> s.dirs == Committed(d0).0)
    && (s.pc.ClearStale? || s.pc.MoveAside? || s.pc.Install? || s.pc.CleanUp? ==> d0.dest.Some?)
  }

  lemma {:induction false} StaleRun(run: seq<State>, d: Dirs, i: nat)
    requires IsRun(run, d) && d.sandbox.Some? && i < |run|
    requires forall j :: 0 < j < |run| ==> !run[j].pc.Start?
    ensures StaleInv(run[i], d)
  {
    if i > 0 {
      StaleRun(run, d, i - 1);
      RunInv(run, d, i - 1);
      assert Step(run[i - 1], run[i]);
    }
  }

  /** The actions together do what CommitSandbox does as a whole. */
  lemma ActionsRefineCommit(run: seq<State>, d: Dirs)
    requires IsRun(run, d) && d.sandbox.Some? && run[|run| - 1].pc.Done?
    requires forall j :: 0 < j < |run| ==> !run[j].pc.Start?
    ensures (run[|run| - 1].dirs, true) == Committed(d)
  {
    StaleRun(run, d, |run| - 1);
  }

  /** What the runs allow for: any action but none after the last may fail, a removal may stop at any part of
      the tree, and a commit may be started again as long as there is a sandbox. */
  lemma AnythingMayHappen(s: State, left: Option<Tree>)
    ensures !s.pc.Done? ==> Step(s, s.(pc := Failed))
    ensures (s.pc.ClearStale? || s.pc.CleanUp?) && PartOf(left, s.dirs.stale) ==>
      Step(s, s.(dirs := s.dirs.(stale := left)))
    ensures s.dirs.sandbox.Some? ==> Step(s, s.(pc := Start))
  {
  }

  /** And for nothing else: no action puts anything anywhere that was not in one of the three places, and only
      the destination is ever put aside. */
  lemma NothingIsInvented(s: State, t: State)
    requires Step(s, t)
    ensures t.dirs.dest == s.dirs.dest || t.dirs.dest == s.dirs.sandbox || t.dirs.dest.None?
    ensures t.dirs.sandbox == s.dirs.sandbox || t.dirs.sandbox.None?
    ensures PartOf(t.dirs.stale, s.dirs.stale) || t.dirs.stale == s.dirs.dest
  {
  }

  // ---- The commit can be carried out ----

  /** The steps of a commit in which nothing fails, from its first action on. */
  function Undisturbed(d: Dirs): seq<State> {
    if d.dest.None? then
      [State(d, Start), State(d, InstallFirst), State(Committed(d).0, if d.sandbox.Some? then Done else Failed)]
    else
      var cleared := d.(stale := None);
      var aside := Dirs(None, d.sandbox, d.dest);
      [State(d, Start), State(d, ClearStale), State(cleared, ClearStale), State(cleared, MoveAside),
       State(aside, Install)]
      + if d.sandbox.None? then [State(aside, Failed)]
        else [State(Dirs(d.sandbox, None, d.dest), CleanUp), State(Dirs(d.sandbox, None, None), CleanUp),
              State(Dirs(d.sandbox, None, None), Done)]
  }

  /** That is a run, and it ends where the commit as a whole does: done, with the new tree in place, exactly
      if there is a sandbox. */
  lemma CommitCanFinish(d: Dirs)
    ensures var run := Undisturbed(d);
      var last := run[|run| - 1];
      && IsRun(run, d) && last.dirs == Committed(d).0
      && (last.pc.Done? <==> Committed(d).1) && (last.pc.Failed? <==> !Committed(d).1)
      && (Committed(d).1 <==> d.sandbox.Some?) && (Committed(d).1 ==> Committed(d).0.dest == d.sandbox)
  {
    var run := Undisturbed(d);
    forall i | 0 <= i < |run| - 1 ensures Step(run[i], run[i + 1]) {
      UndisturbedStep(d, i);
    }
  }

  lemma UndisturbedStep(d: Dirs, i: nat)
    requires i < |Undisturbed(d)| - 1
    ensures Step(Undisturbed(d)[i], Undisturbed(d)[i + 1])
  {
    var s, t := Undisturbed(d)[i], Undisturbed(d)[i + 1];
    if (s.pc.ClearStale? && t.pc.ClearStale?) || (s.pc.CleanUp? && t.pc.CleanUp?) {
      assert PartOf(t.dirs.stale, s.dirs.stale);
    }
  }

  /** A crash can come anywhere; as long as the sandbox is there the commit can be started again, and then
      carried out. */
  lemma RestartCanFinish(run: seq<State>, d: Dirs)
    requires IsRun(run, d) && run[|run| - 1].dirs.sandbox.Some?
    ensures var more := Undisturbed(run[|run| - 1].dirs);
      && IsRun(run + more, d) && (run + more)[|run + more| - 1].pc.Done?
      && (run + more)[|run + more| - 1].dirs.dest == run[|run| - 1].dirs.sandbox
  {
    var at := run[|run| - 1];
    var more := Undisturbed(at.dirs);
    CommitCanFinish(at.dirs);
    assert Step(at, more[0]);
    forall i | 0 <= i < |run + more| - 1 ensures Step((run + more)[i], (run + more)[i + 1]) {
      assert i >= |run| ==> Step(more[i - |run|], more[i - |run| + 1]);
    }
  }
}
