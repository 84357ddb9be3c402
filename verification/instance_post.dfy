/**
 * Moving and renaming an instance: the checks a move request must pass
 * before any work starts, the choice of a cluster member when none was
 * named, and the order in which the source copy's snapshots are removed.
 */
module InstanceMove {
  import opened Wrappers
  import Backup

  /** The fields of a move request that the checks read. */
  datatype InstancePost = InstancePost(name: string, project: string, pool: string, migration: bool, live: bool)

  /** The instance being moved, as loaded on its current member. */
  datatype Instance = Instance(name: string, location: string, running: bool, isVM: bool, isSnapshot: bool)

  /** A cluster member. */
  datatype Member = Member(name: string, offline: bool)

  const ErrInvalidName := "Invalid instance name"
  const ErrTargetStandalone := "Target only allowed when clustered"
  const ErrServerOffline := "Can't perform action as server is currently offline"
  const ErrSnapshot := "Instance snapshots cannot be moved on their own"
  const ErrStateless := "Instance must be stopped to be moved statelessly"
  const ErrLivePoolContainer := "Live storage pool changes aren't supported for containers"
  const ErrLivePoolStandalone := "Live storage pool changes aren't supported on standalone systems"
  const ErrLivePoolTarget := "Live storage pool changes require the VM be moved to another cluster member"
  const ErrRunningProject := "Instance must be stopped to be moved across projects"
  const ErrRunningName := "Instance must be stopped to change their names"
  const ErrSourceOffline := "Instance server is currently offline"
  const ErrNoCandidate := "Couldn't find a cluster member for the instance"
  const ErrTargetOffline := "Target cluster member is offline"
  const ErrSameServer := "Requested target server is the same as current server"
  const ErrHasBackups := "Instances with backups cannot be moved"

  function ErrBackupsFetch(msg: string): string
  {
    "Failed to fetch instance's backups: " + msg
  }

  // ---------------------------------------------------------------------------
  // Request checks
  // ---------------------------------------------------------------------------

  /** A requested name equal to the current one asks for no rename. */
  function ClearSameName(req: InstancePost, current: string): (r: InstancePost)
    ensures r.name == "" || r.name != current
    ensures r.name != "" ==> r.name == req.name
    ensures r.(name := req.name) == req
  {
    if req.name != "" && req.name == current then req.(name := "") else req
  }

  /** What the request turns into: a plain rename, or a migration with the request as checked. */
  datatype Decision = RenameOnly(newName: string) | Migrate(req: InstancePost)

  /** The request asks for a change of pool, project or member. */
  predicate Relocates(req: InstancePost, target: string)
  {
    req.pool != "" || req.project != "" || target != ""
  }

  /**
   * The checks made before the request body is read: the URL must name an
   * instance and not a snapshot, a target needs a cluster, and without a
   * target the member holding the instance (`source`, none when it is this
   * server) must be online.
   */
  function QuickChecks(name: string, target: string, clustered: bool, source: Option<Member>): (r: Outcome)
    ensures r.Pass? <==>
      !Backup.IsSnapshot(name) && (target != "" ==> clustered) && !(target == "" && source.Some? && source.value.offline)
    ensures Backup.IsSnapshot(name) ==> r == Fail(ErrInvalidName)
    ensures !Backup.IsSnapshot(name) && target != "" && !clustered ==> r == Fail(ErrTargetStandalone)
    ensures r.Fail? && !Backup.IsSnapshot(name) && (target != "" ==> clustered) ==> r == Fail(ErrServerOffline)
  {
    if Backup.IsSnapshot(name) then Fail(ErrInvalidName)
    else if target != "" && !clustered then Fail(ErrTargetStandalone)
    else if target == "" && source.Some? && source.value.offline then Fail(ErrServerOffline)
    else Pass
  }

  /**
   * The checks on a move request once the instance is loaded: a request that
   * is not a migration is a rename; a migration of a running instance that
   * relocates it must be live and may only change the pool of a clustered
   * VM moving to a named member; a stopped instance is never moved live;
   * and an offline source only allows a move to another member.
   */
  function MoveDecision(req: InstancePost, inst: Instance, target: string, clustered: bool, sourceOffline: bool)
    : (r: Result<Decision>)
    ensures !req.migration ==> r == Ok(RenameOnly(req.name))
    ensures req.migration && inst.isSnapshot ==> r == Err(ErrSnapshot)
    ensures req.migration && r.Ok? ==> r.value.Migrate? && !inst.isSnapshot
    ensures req.migration && !inst.running ==>
      (r.Ok? <==> !inst.isSnapshot && !(sourceOffline && (req.pool != "" || req.project != "" || req.name != "")))
  {
    if !req.migration then Ok(RenameOnly(req.name))
    else if inst.isSnapshot then Err(ErrSnapshot)
    else
      var checked :=
        if !inst.running then Ok(req.(live := false))
        else if !Relocates(req, target) then Ok(req)
        else if !req.live then Err(ErrStateless)
        else if req.pool != "" && !inst.isVM then Err(ErrLivePoolContainer)
        else if req.pool != "" && !clustered then Err(ErrLivePoolStandalone)
        else if req.pool != "" && target == "" then Err(ErrLivePoolTarget)
        else if req.project != "" then Err(ErrRunningProject)
        else if req.name != "" then Err(ErrRunningName)
        else Ok(req);
      if checked.Err? then Err(checked.msg)
      else if sourceOffline && (req.pool != "" || req.project != "" || req.name != "") then Err(ErrSourceOffline)
      else Ok(Migrate(checked.value))
  }

  /** A migration goes ahead with `live` cleared exactly when the instance is stopped, and otherwise unchanged. */
  lemma MoveKeepsRequest(req: InstancePost, inst: Instance, target: string, clustered: bool, sourceOffline: bool)
    requires MoveDecision(req, inst, target, clustered, sourceOffline).Ok?
    requires req.migration
    ensures var d := MoveDecision(req, inst, target, clustered, sourceOffline).value;
      d.Migrate? && d.req == if inst.running then req else req.(live := false)
  {
  }

  /** A stopped instance is never moved live. */
  lemma StoppedMovesNotLive(req: InstancePost, inst: Instance, target: string, clustered: bool, sourceOffline: bool)
    requires !inst.running
    requires MoveDecision(req, inst, target, clustered, sourceOffline).Ok?
    requires MoveDecision(req, inst, target, clustered, sourceOffline).value.Migrate?
    ensures !MoveDecision(req, inst, target, clustered, sourceOffline).value.req.live
  {
  }

  /**
   * A running instance is relocated only live, without a project or name
   * change, and a live pool change only for a clustered VM going to a named
   * member; a request meeting these and the source check is accepted.
   */
  lemma RunningMoveIff(req: InstancePost, inst: Instance, target: string, clustered: bool, sourceOffline: bool)
    requires req.migration && inst.running && !inst.isSnapshot && Relocates(req, target)
    ensures MoveDecision(req, inst, target, clustered, sourceOffline).Ok? <==>
      req.live && req.project == "" && req.name == ""
      && (req.pool != "" ==> inst.isVM && clustered && target != "")
      && !(sourceOffline && req.pool != "")
  {
  }

  /** The first failing rule for a running instance decides the message. */
  lemma RunningMoveErrors(req: InstancePost, inst: Instance, target: string, clustered: bool, sourceOffline: bool)
    requires req.migration && inst.running && !inst.isSnapshot && Relocates(req, target)
    ensures !req.live ==> MoveDecision(req, inst, target, clustered, sourceOffline) == Err(ErrStateless)
    ensures req.live && req.pool != "" && !inst.isVM ==>
      MoveDecision(req, inst, target, clustered, sourceOffline) == Err(ErrLivePoolContainer)
    ensures req.live && req.pool == "" && req.project != "" ==>
      MoveDecision(req, inst, target, clustered, sourceOffline) == Err(ErrRunningProject)
    ensures req.live && req.pool == "" && req.project == "" && req.name != "" ==>
      MoveDecision(req, inst, target, clustered, sourceOffline) == Err(ErrRunningName)
  {
  }

  /**
   * The request as the handler sees it: the quick checks on the URL, then,
   * with a requested name equal to the current one cleared, the checks on
   * the loaded instance; an offline source counts in both.
   */
  function RequestDecision(name: string, target: string, clustered: bool, source: Option<Member>,
                           req: InstancePost, inst: Instance): Result<Decision>
  {
    var q := QuickChecks(name, target, clustered, source);
    if q.Fail? then Err(q.msg)
    else MoveDecision(ClearSameName(req, name), inst, target, clustered, source.Some? && source.value.offline)
  }

  /**
   * A running instance that changes pool, project or member, asked for by
   * its own name, may move iff the URL passes the quick checks, the move is
   * live, keeps the project and the name (a name equal to the current one
   * counts as kept), a pool change is for a VM in a cluster with a target,
   * and an offline source changes nothing but the member.
   */
  lemma RequestRunningIff(name: string, target: string, clustered: bool, source: Option<Member>,
                          req: InstancePost, inst: Instance)
    requires req.migration && inst.running && !inst.isSnapshot && Relocates(req, target)
    ensures var offline := source.Some? && source.value.offline;
      RequestDecision(name, target, clustered, source, req, inst).Ok? <==>
        !Backup.IsSnapshot(name) && (target != "" ==> clustered) && !(target == "" && offline)
        && req.live && req.project == "" && (req.name == "" || req.name == name)
        && (req.pool != "" ==> inst.isVM && clustered && target != "")
        && !(offline && req.pool != "")
  {
    var c := ClearSameName(req, name);
    assert Relocates(c, target);
    RunningMoveIff(c, inst, target, clustered, source.Some? && source.value.offline);
  }

  /**
   * A request accepted while the instance's member is offline names a
   * target in a cluster, and a migration then changes nothing but the member.
   */
  lemma OfflineSourceOnlyRelocates(name: string, target: string, clustered: bool, source: Option<Member>,
                                   req: InstancePost, inst: Instance)
    requires source.Some? && source.value.offline
    requires RequestDecision(name, target, clustered, source, req, inst).Ok?
    ensures target != "" && clustered
    ensures req.migration ==> req.pool == "" && req.project == "" && (req.name == "" || req.name == name)
  {
  }

  // ---------------------------------------------------------------------------
  // Choosing a member
  // ---------------------------------------------------------------------------

  /** The candidates not on the instance's current member, in order. */
  function Elsewhere(candidates: seq<Member>, location: string): seq<Member>
  {
    if |candidates| == 0 then []
    else
      var rest := Elsewhere(candidates[..|candidates| - 1], location);
      var c := candidates[|candidates| - 1];
      if c.name != location then rest + [c] else rest
  }

  /** The fallback member: the first candidate elsewhere, or an error when there is none. */
  function Fallback(candidates: seq<Member>, location: string): Result<Member>
  {
    var others := Elsewhere(candidates, location);
    if |others| == 0 then Err(ErrNoCandidate) else Ok(others[0])
  }

  /** Drops the current member from the candidates and takes the first left. */
  method PickFallback(candidates: seq<Member>, location: string) returns (r: Result<Member>)
    ensures r == Fallback(candidates, location)
  {
    var filtered: seq<Member> := [];
    for i := 0 to |candidates|
      invariant filtered == Elsewhere(candidates[..i], location)
    {
      assert candidates[..i + 1][..i] == candidates[..i];
      if candidates[i].name != location {
        filtered := filtered + [candidates[i]];
      }
    }
    assert candidates[..|candidates|] == candidates;
    if |filtered| == 0 {
      return Err(ErrNoCandidate);
    }
    return Ok(filtered[0]);
  }

  /** The members kept are exactly the candidates placed elsewhere. */
  lemma {:induction false} ElsewhereMeaning(candidates: seq<Member>, location: string, m: Member)
    ensures m in Elsewhere(candidates, location) <==> m in candidates && m.name != location
  {
    if |candidates| > 0 {
      var init := candidates[..|candidates| - 1];
      ElsewhereMeaning(init, location, m);
      assert candidates == init + [candidates[|candidates| - 1]];
    }
  }

  /** The members kept appear in the order of the candidate list. */
  lemma {:induction false} ElsewhereFirst(candidates: seq<Member>, location: string, i: nat)
    requires i < |candidates| && candidates[i].name != location
    requires forall j :: 0 <= j < i ==> candidates[j].name == location
    ensures |Elsewhere(candidates, location)| > 0 && Elsewhere(candidates, location)[0] == candidates[i]
  {
    if |candidates| - 1 > i {
      var init := candidates[..|candidates| - 1];
      ElsewhereFirst(init, location, i);
    } else {
      var init := candidates[..i];
      ElsewhereNone(init, location);
    }
  }

  /** Candidates all on the current member leave nothing. */
  lemma {:induction false} ElsewhereNone(candidates: seq<Member>, location: string)
    requires forall j :: 0 <= j < |candidates| ==> candidates[j].name == location
    ensures Elsewhere(candidates, location) == []
  {
    if |candidates| > 0 {
      ElsewhereNone(candidates[..|candidates| - 1], location);
    }
  }

  /**
   * The fallback fails exactly when every candidate is the current member,
   * and otherwise is the first candidate that is not.
   */
  lemma FallbackMeaning(candidates: seq<Member>, location: string)
    ensures Fallback(candidates, location).Err? <==> forall j :: 0 <= j < |candidates| ==> candidates[j].name == location
    ensures Fallback(candidates, location).Ok? ==>
      exists i :: 0 <= i < |candidates| && candidates[i] == Fallback(candidates, location).value
        && candidates[i].name != location && forall j :: 0 <= j < i ==> candidates[j].name == location
  {
    if forall j :: 0 <= j < |candidates| ==> candidates[j].name == location {
      ElsewhereNone(candidates, location);
    } else {
      var k :| 0 <= k < |candidates| && candidates[k].name != location;
      var i := 0;
      while candidates[i].name == location
        invariant i <= k
        invariant forall j :: 0 <= j < i ==> candidates[j].name == location
        decreases k - i
      {
        i := i + 1;
      }
      ElsewhereFirst(candidates, location, i);
    }
  }

  /**
   * The member a clustered move goes to: the current location when it is
   * still acceptable, else the member the target names, else the fallback
   * among the candidates; an offline member is refused.
   */
  function Placement(keep: Option<Member>, requested: Result<Option<Member>>, candidates: seq<Member>,
                     location: string): (r: Result<Member>)
    ensures r.Ok? ==> !r.value.offline
  {
    var chosen :=
      if keep.Some? then Ok(keep.value)
      else if requested.Err? then Err(requested.msg)
      else if requested.value.Some? then Ok(requested.value.value)
      else Fallback(candidates, location);
    if chosen.Err? then chosen
    else if chosen.value.offline then Err(ErrTargetOffline)
    else chosen
  }

  /** A move with no acceptable current location and no named member never stays where it is. */
  lemma FallbackLeavesLocation(candidates: seq<Member>, location: string)
    requires Placement(None, Ok(None), candidates, location).Ok?
    ensures Placement(None, Ok(None), candidates, location).value.name != location
  {
    var others := Elsewhere(candidates, location);
    ElsewhereMeaning(candidates, location, others[0]);
  }

  /** The member chosen for the move, if the cluster is asked for one. */
  function TargetMember(clustered: bool, target: string, req: InstancePost, keep: Option<Member>,
                        requested: Result<Option<Member>>, candidates: seq<Member>, location: string)
    : (r: Result<Option<Member>>)
    ensures clustered && (target != "" || req.project != "") && r.Ok? ==> r.value.Some?
    ensures !(clustered && (target != "" || req.project != "")) ==> r == Ok(None)
  {
    if clustered && (target != "" || req.project != "") then
      var p := Placement(keep, requested, candidates, location);
      if p.Err? then Err(p.msg) else Ok(Some(p.value))
    else Ok(None)
  }

  /**
   * The last checks before a move: a named target must differ from the
   * current location, and an instance that changes member must have no
   * backups.
   */
  function TargetChecks(target: string, member: Option<Member>, location: string, backups: Result<seq<string>>)
    : Outcome
    requires target != "" ==> member.Some?
  {
    if target != "" && member.value.name == location then Fail(ErrSameServer)
    else if member.Some? && member.value.name != location then
      if backups.Err? then Fail(ErrBackupsFetch(backups.msg))
      else if |backups.value| > 0 then Fail(ErrHasBackups)
      else Pass
    else Pass
  }

  /** A target is only accepted when the cluster, which a target requires, has picked a member for it. */
  lemma TargetHasMember(target: string, req: InstancePost, keep: Option<Member>,
                        requested: Result<Option<Member>>, candidates: seq<Member>, location: string)
    requires target != ""
    requires TargetMember(true, target, req, keep, requested, candidates, location).Ok?
    ensures TargetMember(true, target, req, keep, requested, candidates, location).value.Some?
  {
  }

  /** The checks pass exactly when a named target is elsewhere and a member change meets no backups. */
  lemma TargetChecksIff(target: string, member: Option<Member>, location: string, backups: Result<seq<string>>)
    requires target != "" ==> member.Some?
    ensures TargetChecks(target, member, location, backups).Pass? <==>
      (target != "" ==> member.value.name != location)
      && (member.Some? && member.value.name != location ==> backups.Ok? && |backups.value| == 0)
  {
  }

  // ---------------------------------------------------------------------------
  // Removing the source copy
  // ---------------------------------------------------------------------------

  function ErrSnapshotDelete(name: string, msg: string): string
  {
    "Failed delete instance snapshot \"" + name + "\" on source member: " + msg
  }

  /**
   * Deletes the source copy's snapshots from the newest (last in the list)
   * to the oldest, stopping at the first failure; `attempted` lists the
   * deletions made, in order.
   */
  method DeleteSnapshots(snapshots: seq<string>, delete: string -> Outcome)
    returns (r: Outcome, attempted: seq<string>)
    ensures |attempted| <= |snapshots|
    ensures forall i :: 0 <= i < |attempted| ==> attempted[i] == snapshots[|snapshots| - 1 - i]
    ensures forall i :: 0 <= i < |attempted| - 1 ==> delete(attempted[i]).Pass?
    ensures r.Pass? ==> |attempted| == |snapshots| && forall i :: 0 <= i < |attempted| ==> delete(attempted[i]).Pass?
    ensures r.Fail? ==>
      |attempted| > 0 && delete(attempted[|attempted| - 1]).Fail?
      && r.msg == ErrSnapshotDelete(attempted[|attempted| - 1], delete(attempted[|attempted| - 1]).msg)
  {
    var count := |snapshots|;
    attempted := [];
    for k := 0 to count
      invariant |attempted| == k
      invariant forall i :: 0 <= i < k ==> attempted[i] == snapshots[count - 1 - i]
      invariant forall i :: 0 <= i < k ==> delete(attempted[i]).Pass?
    {
      var j := count - 1 - k;
      var o := delete(snapshots[j]);
      attempted := attempted + [snapshots[j]];
      if o.Fail? {
        return Fail(ErrSnapshotDelete(snapshots[j], o.msg)), attempted;
      }
    }
    return Pass, attempted;
  }

  /** A snapshot later in the list is always deleted before an earlier one. */
  lemma DeletionOrder(snapshots: seq<string>, attempted: seq<string>, a: nat, b: nat)
    requires |attempted| <= |snapshots|
    requires forall i :: 0 <= i < |attempted| ==> attempted[i] == snapshots[|snapshots| - 1 - i]
    requires a < b < |snapshots| && |snapshots| - 1 - a < |attempted|
    ensures exists i, j :: 0 <= i < j < |attempted| && attempted[i] == snapshots[b] && attempted[j] == snapshots[a]
  {
    var i, j := |snapshots| - 1 - b, |snapshots| - 1 - a;
    assert attempted[i] == snapshots[b] && attempted[j] == snapshots[a];
  }
}
