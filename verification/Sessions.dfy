/** Every history of the service, whatever is called and whatever fails, is a run of
    atomic steps: the crashing service refines the atomic one. */
module Sessions {
  import opened Outcomes
  import opened WorkTree
  import opened Repository
  import opened Steps
  import opened Preservation
  import opened Workspace
  import opened Runs

  lemma LandedLeavesSandboxes(s: Repo, c: Commit, index: Option<PendingIndex>, boxes: map<Agent, Files>)
    ensures Landed(s.(sandbox := boxes), c, index) == Landed(s, c, index).(sandbox := boxes)
    ensures Landed(s, c, index).sandbox == s.sandbox
  {
  }

  lemma MovedLeavesSandboxes(s: Repo, target: Option<nat>, boxes: map<Agent, Files>)
    ensures Moved(s.(sandbox := boxes), target) == Moved(s, target).(sandbox := boxes)
    ensures Moved(s, target).sandbox == s.sandbox
  {
    hide Brought, ApplyFiles, Ancestors, Keep, TreeAt;
  }

  lemma DiscardedLeavesSandboxes(s: Repo, keep: Option<nat>, boxes: map<Agent, Files>)
    ensures Discarded(s.(sandbox := boxes), keep) == Discarded(s, keep).(sandbox := boxes)
    ensures Discarded(s, keep).sandbox == s.sandbox
  {
    hide Brought, ApplyFiles, Ancestors, Keep, TreeAt;
  }

  lemma ReplayedCommitLeavesSandboxes(s: Repo, boxes: map<Agent, Files>)
    requires s.pending.Some? && s.pending.value.Committing?
    ensures Recovered(s.(sandbox := boxes)) == Recovered(s).(sandbox := boxes)
    ensures Recovered(s).sandbox == s.sandbox
  {
    hide Landed, Moved, Discarded;
    LandedLeavesSandboxes(s.(pending := None), s.pending.value.commit, s.pending.value.index, boxes);
  }

  lemma ReplayedMoveLeavesSandboxes(s: Repo, boxes: map<Agent, Files>)
    requires s.pending.Some? && s.pending.value.Restoring?
    ensures Recovered(s.(sandbox := boxes)) == Recovered(s).(sandbox := boxes)
    ensures Recovered(s).sandbox == s.sandbox
  {
    hide Landed, Moved, Discarded;
    MovedLeavesSandboxes(s.(pending := None), s.pending.value.target, boxes);
  }

  lemma ReplayedDiscardLeavesSandboxes(s: Repo, boxes: map<Agent, Files>)
    requires s.pending.Some? && s.pending.value.Discarding?
    ensures Recovered(s.(sandbox := boxes)) == Recovered(s).(sandbox := boxes)
    ensures Recovered(s).sandbox == s.sandbox
  {
    hide Landed, Moved, Discarded;
    DiscardedLeavesSandboxes(s.(pending := None), s.pending.value.keep, boxes);
  }

  lemma NothingToReplay(s: Repo)
    requires s.pending.None?
    ensures Recovered(s) == s
  {
  }

  lemma RecoveryLeavesSandboxes(s: Repo, boxes: map<Agent, Files>)
    ensures Recovered(s.(sandbox := boxes)) == Recovered(s).(sandbox := boxes)
    ensures Recovered(s).sandbox == s.sandbox
  {
    hide Recovered;
    match s.pending {
      case None =>
        NothingToReplay(s);
        NothingToReplay(s.(sandbox := boxes));
      case Some(Committing(_, _)) => ReplayedCommitLeavesSandboxes(s, boxes);
      case Some(Restoring(_)) => ReplayedMoveLeavesSandboxes(s, boxes);
      case Some(Discarding(_)) => ReplayedDiscardLeavesSandboxes(s, boxes);
    }
  }

  lemma ReadyWhateverSandboxes(s: Repo, boxes: map<Agent, Files>)
    requires Ready(s)
    ensures Ready(s.(sandbox := boxes))
  {
  }

  /** Files changed by their owner while no operation runs do not disturb a journal. */
  lemma OwnEdit(s: Repo, agent: Agent, files: Files)
    requires Inv(s) && agent in s.sandbox
    ensures var t := s.(sandbox := s.sandbox[agent := files]);
      && Inv(t)
      && Recovered(t) == Recovered(s).(sandbox := s.sandbox[agent := files])
    ensures Recovered(s).sandbox == s.sandbox
  {
    hide Recovered, Ready, Consistent;
    var boxes := s.sandbox[agent := files];
    RecoveryLeavesSandboxes(s, boxes);
    ReadyWhateverSandboxes(s, boxes);
    RecoveredIdle(s);
    FilesKeep(Recovered(s), Recovered(s).(sandbox := boxes));
  }

  lemma RecoveredIdle(s: Repo)
    requires Inv(s)
    ensures Idle(Recovered(s))
  {
    hide Consistent, Ready;
    RecoveryFrame(s);
  }

  /** One call, its result thrown away; owners edit their files between calls. Outside
      edits wait for a pending recovery. */
  method Perform(w: Service, call: Call)
    requires Inv(w.State())
    modifies w
    ensures Inv(w.State())
    ensures Step(old(Recovered(w.State())), call, Recovered(w.State()))
  {
    hide Inv, Recovered, Step, Ready, Consistent;
    ghost var s := w.State();
    Stutter(s, call);
    match call
    case EditSandbox(agent, files) =>
      if agent in w.sandbox {
        OwnEdit(s, agent, files);
        EditStep(s, call);
        w.sandbox := w.sandbox[agent := files];
      }
    case EditOutside(files) =>
      if w.external && w.pending.None? {
        OutsideEdit(s, files);
        w.shared := files;
      }
    case WorkPull(agent, paths) => var _ := w.WorkPullPaths(agent, paths);
    case WorkCommit(agent, paths, deletes, line, note) => var _ := w.WorkCommitAgent(agent, paths, deletes, line, note);
    case WorkSync(paths, time) => var _ := w.WorkSyncPaths(paths, time);
    case WorkCommitUser(path, bytes, time, line) => var _ := w.WorkCommitUserFile(path, bytes, time, line);
    case WorkResolve(agent, paths, take, expectHead) => var _ := w.WorkResolvePaths(agent, paths, take, expectHead);
    case WorkRestoreLost(agent, path, expectCurrent) => var _ := w.WorkRestoreLostPath(agent, path, expectCurrent);
    case WorkRestore(target, force) => var _ := w.MoveTo(target, force);
    case WorkRewind(keepByAgent) => var _ := w.WorkRewindTo(keepByAgent);
    case WorkDiscard(keep) => var _ := w.WorkDiscardAfter(keep);
    case WorkGc =>
      if * {
        var _ := w.WorkGcNow(true);
      } else {
        var _ := w.WorkGcNow(false);
      }
    case WorkRecover => var _ := w.WorkRecoverNow();
  }

  lemma Stutter(s: Repo, call: Call)
    requires Inv(s)
    ensures Step(Recovered(s), call, Recovered(s))
  {
    assert Spare(Recovered(s), Recovered(s));
  }

  lemma EditStep(s: Repo, call: Call)
    requires Inv(s) && call.EditSandbox? && call.agent in s.sandbox
    requires Recovered(s).sandbox == s.sandbox
    ensures Step(Recovered(s), call, Recovered(s).(sandbox := s.sandbox[call.agent := call.files]))
  {
  }

  lemma OutsideEdit(s: Repo, files: Files)
    requires Inv(s) && s.external && s.pending.None?
    ensures Inv(s.(shared := files))
    ensures Step(Recovered(s), EditOutside(files), Recovered(s.(shared := files)))
  {
    FilesKeep(s, s.(shared := files));
  }

  /** Any list of calls to a fresh service, under any failures and crashes, leaves a run
      of atomic steps behind; what is on disk recovers to the last state of that run. */
  method Play(w: Service, calls: seq<Call>) returns (ghost states: seq<Repo>)
    requires Fresh(w.State())
    modifies w
    ensures IsRun(states, calls)
    ensures Inv(w.State()) && Recovered(w.State()) == states[|calls|]
  {
    hide Inv, Recovered, Step, Ready, Consistent;
    FreshIsInv(w.State());
    states := [w.State()];
    for k := 0 to |calls|
      invariant IsRun(states, calls[..k])
      invariant Inv(w.State()) && Recovered(w.State()) == states[k]
    {
      Perform(w, calls[k]);
      ExtendRun(states, calls[..k], calls[k], Recovered(w.State()));
      states := states + [Recovered(w.State())];
      assert calls[..k + 1] == calls[..k] + [calls[k]];
    }
    assert calls[..|calls|] == calls;
  }

  lemma FreshIsInv(s: Repo)
    requires Fresh(s)
    ensures Inv(s) && Recovered(s) == s
  {
  }

  lemma ExtendRun(states: seq<Repo>, calls: seq<Call>, call: Call, t: Repo)
    requires IsRun(states, calls) && Step(states[|calls|], call, t)
    ensures IsRun(states + [t], calls + [call])
  {
    hide Step, Fresh;
    var more, all := states + [t], calls + [call];
    forall i: nat | i < |all|
      ensures StepAt(more, all, i)
    {
      if i < |calls| {
        assert StepAt(states, calls, i);
      }
    }
  }
}
