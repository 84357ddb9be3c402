/**
 * The OpenFGA authorizer's bookkeeping: reading its connection settings,
 * the relationship tuples each resource change writes or deletes, the diff
 * that brings the store in line with the local resources, and the merge of
 * per-relation user listings into an instance's access list.
 */
module OpenFGA {
  import opened Wrappers

  // ---------------------------------------------------------------------------
  // Settings
  // ---------------------------------------------------------------------------

  /** A configuration value as Go sees it behind `any`: nil, a string, or something else. */
  datatype Value = Nil | Str(s: string) | Other(typeName: string)

  const TokenKey := "openfga.api.token"
  const URLKey := "openfga.api.url"
  const StoreKey := "openfga.store.id"

  const ErrNoConfig := "Missing OpenFGA config"
  const ErrNoToken := "Missing OpenFGA API token"
  const ErrNoURL := "Missing OpenFGA API URL"
  const ErrNoStore := "Missing OpenFGA store ID"

  function ErrNotString(key: string, typeName: string): string
  {
    "Expected a string for configuration key \"" + key + "\", got: " + typeName
  }

  /** The key is there and not nil. */
  predicate Present(m: map<string, Value>, key: string)
  {
    key in m && m[key] != Nil
  }

  /** The key holds a string. */
  predicate HoldsString(m: map<string, Value>, key: string)
  {
    key in m && m[key].Str?
  }

  /** What a comma-ok string assertion stores: the string, or Go's zero value "". */
  function Asserted(v: Value): string
  {
    if v.Str? then v.s else ""
  }

  /** The check made for one key. */
  function CheckKey(m: map<string, Value>, key: string, missing: string): (r: Outcome)
    ensures r.Pass? <==> HoldsString(m, key)
    ensures !Present(m, key) ==> r == Fail(missing)
    ensures Present(m, key) && !HoldsString(m, key) ==> r == Fail(ErrNotString(key, m[key].typeName))
  {
    if !Present(m, key) then Fail(missing)
    else if !m[key].Str? then Fail(ErrNotString(key, m[key].typeName))
    else Pass
  }

  /** The verdict of `configure` on an optional (possibly nil) configuration map. */
  function Configured(config: Option<map<string, Value>>): (r: Outcome)
  {
    if config.None? then Fail(ErrNoConfig)
    else
      var m := config.value;
      var token := CheckKey(m, TokenKey, ErrNoToken);
      if token.Fail? then token
      else
        var url := CheckKey(m, URLKey, ErrNoURL);
        if url.Fail? then url
        else CheckKey(m, StoreKey, ErrNoStore)
  }

  /** The settings are accepted exactly when all three keys hold strings. */
  lemma ConfiguredPassIff(config: Option<map<string, Value>>)
    ensures Configured(config).Pass? <==>
      config.Some? && HoldsString(config.value, TokenKey) && HoldsString(config.value, URLKey)
      && HoldsString(config.value, StoreKey)
  {
  }

  /** A failure reports the first key, in the order token, URL, store ID, that is missing or not a string. */
  lemma ConfiguredReportsFirst(m: map<string, Value>)
    ensures !Present(m, TokenKey) ==> Configured(Some(m)) == Fail(ErrNoToken)
    ensures HoldsString(m, TokenKey) && !Present(m, URLKey) ==> Configured(Some(m)) == Fail(ErrNoURL)
    ensures HoldsString(m, TokenKey) && HoldsString(m, URLKey) && !Present(m, StoreKey) ==>
      Configured(Some(m)) == Fail(ErrNoStore)
  {
  }

  /** The authorizer's connection settings and its online flag. */
  class FGA {
    var apiURL: string
    var apiToken: string
    var storeID: string
    var online: bool

    constructor ()
      ensures apiURL == "" && apiToken == "" && storeID == "" && !online
    {
      apiURL := "";
      apiToken := "";
      storeID := "";
      online := false;
    }

    /**
     * Reads the three settings in turn. Each one found is stored before its
     * type is checked, so a non-string leaves "" behind, and the keys after a
     * failure are not touched.
     */
    method Configure(config: Option<map<string, Value>>) returns (r: Outcome)
      modifies this
      ensures r == Configured(config)
      ensures online == old(online)
      ensures apiToken ==
        if config.Some? && Present(config.value, TokenKey) then Asserted(config.value[TokenKey])
        else old(apiToken)
      ensures apiURL ==
        if config.Some? && HoldsString(config.value, TokenKey) && Present(config.value, URLKey)
        then Asserted(config.value[URLKey])
        else old(apiURL)
      ensures storeID ==
        if config.Some? && HoldsString(config.value, TokenKey) && HoldsString(config.value, URLKey)
           && Present(config.value, StoreKey)
        then Asserted(config.value[StoreKey])
        else old(storeID)
      ensures r.Pass? ==>
        apiToken == config.value[TokenKey].s && apiURL == config.value[URLKey].s
        && storeID == config.value[StoreKey].s
    {
      if config.None? {
        return Fail(ErrNoConfig);
      }
      var m := config.value;
      if !Present(m, TokenKey) {
        return Fail(ErrNoToken);
      }
      apiToken := Asserted(m[TokenKey]);
      if !m[TokenKey].Str? {
        return Fail(ErrNotString(TokenKey, m[TokenKey].typeName));
      }
      if !Present(m, URLKey) {
        return Fail(ErrNoURL);
      }
      apiURL := Asserted(m[URLKey]);
      if !m[URLKey].Str? {
        return Fail(ErrNotString(URLKey, m[URLKey].typeName));
      }
      if !Present(m, StoreKey) {
        return Fail(ErrNoStore);
      }
      storeID := Asserted(m[StoreKey]);
      if !m[StoreKey].Str? {
        return Fail(ErrNotString(StoreKey, m[StoreKey].typeName));
      }
      return Pass;
    }
  }

  // ---------------------------------------------------------------------------
  // Objects and tuples
  // ---------------------------------------------------------------------------

  /** The authorization objects, one constructor per object type. */
  datatype Object =
    | ServerObject
    | ProjectObject(name: string)
    | CertificateObject(fingerprint: string)
    | StoragePoolObject(name: string)
    | NetworkIntegrationObject(name: string)
    | ImageObject(project: string, fingerprint: string)
    | ImageAliasObject(project: string, name: string)
    | InstanceObject(project: string, name: string)
    | NetworkObject(project: string, name: string)
    | NetworkZoneObject(project: string, name: string)
    | NetworkACLObject(project: string, name: string)
    | NetworkAddressSetObject(project: string, name: string)
    | ProfileObject(project: string, name: string)
    | StorageVolumeObject(project: string, pool: string, volumeType: string, name: string, location: string)
    | StorageBucketObject(project: string, pool: string, name: string, location: string)

  /** Objects owned by a project rather than by the server. */
  predicate ProjectScoped(o: Object)
  {
    !(o.ServerObject? || o.ProjectObject? || o.CertificateObject? || o.StoragePoolObject?
      || o.NetworkIntegrationObject?)
  }

  /** The project an object names: its own name for a project, "" for server-wide objects. */
  function ProjectOf(o: Object): string
  {
    if o.ProjectObject? then o.name
    else if ProjectScoped(o) then o.project
    else ""
  }

  datatype Relation = ServerRelation | ProjectRelation

  datatype Tuple = Tuple(user: Object, relation: Relation, obj: Object)

  /** The tuple that attaches an object to its parent: its project, or the server. */
  function Parent(o: Object): (t: Tuple)
    ensures t.obj == o
    ensures ProjectScoped(o) <==> t.relation == ProjectRelation
    ensures t.user == if ProjectScoped(o) then ProjectObject(ProjectOf(o)) else ServerObject
  {
    if ProjectScoped(o) then Tuple(ProjectObject(ProjectOf(o)), ProjectRelation, o)
    else Tuple(ServerObject, ServerRelation, o)
  }

  /** A write request's two lists; `None` is a nil slice. */
  datatype Update = Update(writes: Option<seq<Tuple>>, deletions: Option<seq<Tuple>>)

  function Slice<T>(s: Option<seq<T>>): seq<T>
  {
    if s.Some? then s.value else []
  }

  /** The store a successful request leaves: the deleted tuples gone, the written ones there. */
  function Apply(store: set<Tuple>, u: Update): set<Tuple>
  {
    (store - set t | t in Slice(u.deletions)) + set t | t in Slice(u.writes)
  }

  /** The tuples written when an object other than a project is created. */
  function Added(o: Object): Update
  {
    Update(Some([Parent(o)]), None)
  }

  /** The tuples deleted when an object other than a project is removed. */
  function Deleted(o: Object): Update
  {
    Update(None, Some([Parent(o)]))
  }

  /** Objects the authorizer can rename. */
  predicate Renamable(o: Object)
  {
    o.NetworkIntegrationObject? || o.ImageAliasObject? || o.InstanceObject? || o.NetworkObject?
    || o.NetworkACLObject? || o.NetworkAddressSetObject? || o.ProfileObject? || o.StorageVolumeObject?
  }

  /** The same object under another name. */
  function WithName(o: Object, newName: string): (r: Object)
    requires Renamable(o)
    ensures Renamable(r) && ProjectOf(r) == ProjectOf(o) && r.name == newName
  {
    match o
      case NetworkIntegrationObject(_) => NetworkIntegrationObject(newName)
      case ImageAliasObject(p, _) => ImageAliasObject(p, newName)
      case InstanceObject(p, _) => InstanceObject(p, newName)
      case NetworkObject(p, _) => NetworkObject(p, newName)
      case NetworkACLObject(p, _) => NetworkACLObject(p, newName)
      case NetworkAddressSetObject(p, _) => NetworkAddressSetObject(p, newName)
      case ProfileObject(p, _) => ProfileObject(p, newName)
      case StorageVolumeObject(p, pool, t, _, loc) => StorageVolumeObject(p, pool, t, newName, loc)
  }

  /** A rename writes the new name's tuple and deletes the old one's. */
  function Renamed(o: Object, newName: string): Update
    requires Renamable(o)
  {
    Update(Some([Parent(WithName(o, newName))]), Some([Parent(o)]))
  }

  /** A new project is attached to the server, and its default profile to it. */
  function ProjectAdded(name: string): Update
  {
    Update(Some([Parent(ProjectObject(name)), Parent(ProfileObject(name, "default"))]), None)
  }

  /** Deleting a project detaches its default profile, then the project itself. */
  function ProjectDeleted(name: string): Update
  {
    Update(None, Some([Parent(ProfileObject(name, "default")), Parent(ProjectObject(name))]))
  }

  /** Renaming a project writes the new name's two tuples and deletes the old name's. */
  function ProjectRenamed(oldName: string, newName: string): Update
  {
    Update(ProjectAdded(newName).writes, ProjectDeleted(oldName).deletions)
  }

  /** The user and relation of an object's parent tuple survive a rename. */
  lemma RenameKeepsParent(o: Object, newName: string)
    requires Renamable(o)
    ensures Parent(WithName(o, newName)).user == Parent(o).user
    ensures Parent(WithName(o, newName)).relation == Parent(o).relation
    ensures Slice(Renamed(o, newName).writes) == [Parent(WithName(o, newName))]
    ensures Slice(Renamed(o, newName).deletions) == [Parent(o)]
  {
  }

  /** Deleting an object takes away exactly what adding it put in. */
  lemma DeleteUndoesAdd(store: set<Tuple>, o: Object)
    requires Parent(o) !in store
    ensures Parent(o) in Apply(store, Added(o))
    ensures Apply(Apply(store, Added(o)), Deleted(o)) == store
  {
  }

  /** A project's deletion removes the same two tuples its creation wrote, and undoes it. */
  lemma ProjectDeleteUndoesAdd(store: set<Tuple>, name: string)
    requires Parent(ProjectObject(name)) !in store
    requires Parent(ProfileObject(name, "default")) !in store
    ensures multiset(Slice(ProjectDeleted(name).deletions)) == multiset(Slice(ProjectAdded(name).writes))
    ensures Apply(Apply(store, ProjectAdded(name)), ProjectDeleted(name)) == store
  {
    var a := Parent(ProjectObject(name));
    var b := Parent(ProfileObject(name, "default"));
    assert Slice(ProjectAdded(name).writes) == [a, b];
    assert Slice(ProjectDeleted(name).deletions) == [b, a];
    assert (set t | t in [a, b]) == {a, b};
    assert (set t | t in [b, a]) == {a, b};
  }

  /** A rename moves the parent tuple from the old name to the new one and leaves the rest. */
  lemma RenameMovesTuple(store: set<Tuple>, o: Object, newName: string)
    requires Renamable(o)
    ensures Apply(store, Renamed(o, newName)) == (store - {Parent(o)}) + {Parent(WithName(o, newName))}
  {
    assert (set t | t in [Parent(o)]) == {Parent(o)};
    assert (set t | t in [Parent(WithName(o, newName))]) == {Parent(WithName(o, newName))};
  }

  // ---------------------------------------------------------------------------
  // Sending
  // ---------------------------------------------------------------------------

  /** The body of a write request: nil lists are sent as empty ones. */
  datatype WriteBody = WriteBody(writes: seq<Tuple>, deletes: seq<Tuple>)

  function Body(u: Update): (b: WriteBody)
    ensures u.writes.None? ==> b.writes == []
    ensures u.deletions.None? ==> b.deletes == []
    ensures u.writes.Some? ==> b.writes == u.writes.value
    ensures u.deletions.Some? ==> b.deletes == u.deletions.value
  {
    WriteBody(Slice(u.writes), Slice(u.deletions))
  }

  /**
   * The request `updateTuples` sends, if any: none while offline (a full
   * sync follows the connection) and none when both lists are empty.
   */
  function Dispatch(online: bool, u: Update): (r: Option<WriteBody>)
  {
    if !online then None
    else if |Slice(u.writes)| == 0 && |Slice(u.deletions)| == 0 then None
    else Some(Body(u))
  }

  /** A request goes out exactly when online with something to send, and it carries the update unchanged. */
  lemma DispatchSendsUpdate(online: bool, u: Update)
    ensures Dispatch(online, u).Some? <==> online && (|Slice(u.writes)| > 0 || |Slice(u.deletions)| > 0)
    ensures Dispatch(online, u).Some? ==>
      Dispatch(online, u).value.writes == Slice(u.writes) && Dispatch(online, u).value.deletes == Slice(u.deletions)
  {
  }

  /** Every single-object change sends one tuple when online. */
  lemma SingleChangesSend(o: Object)
    ensures Dispatch(true, Added(o)) == Some(WriteBody([Parent(o)], []))
    ensures Dispatch(true, Deleted(o)) == Some(WriteBody([], [Parent(o)]))
    ensures Dispatch(false, Added(o)).None? && Dispatch(false, Deleted(o)).None?
  {
  }

  /** One entry of the store's answer to a write: the tuple and the error it met, if any. */
  datatype TupleReply = TupleReply(tuple: Tuple, error: Option<string>)

  datatype WriteReply = WriteReply(writes: seq<TupleReply>, deletes: seq<TupleReply>)

  /** Why a write request failed. */
  datatype SendError =
    | StoreFailed(msg: string)
    | WriteFailed(tuple: Tuple, msg: string)
    | DeleteFailed(tuple: Tuple, msg: string)

  /** The first entry that carries an error. */
  function FirstFailure(rs: seq<TupleReply>): (r: Option<TupleReply>)
    ensures r.None? <==> forall i :: 0 <= i < |rs| ==> rs[i].error.None?
    ensures r.Some? ==>
      exists i :: (0 <= i < |rs| && rs[i] == r.value && rs[i].error.Some?
                   && forall j :: 0 <= j < i ==> rs[j].error.None?)
  {
    if |rs| == 0 then None
    else if rs[0].error.Some? then Some(rs[0])
    else
      var r := FirstFailure(rs[1..]);
      if r.Some? then
        var i :| 0 <= i < |rs[1..]| && rs[1..][i] == r.value && rs[1..][i].error.Some?
          && forall j :: 0 <= j < i ==> rs[1..][j].error.None?;
        assert rs[i + 1] == r.value;
        r
      else r
  }

  /** The error `sendTuples` reports for the store's answer: the call's own error, else the first failed write, else the first failed deletion. */
  function ReplyError(reply: Result<WriteReply>): Option<SendError>
  {
    if reply.Err? then Some(StoreFailed(reply.msg))
    else
      var w := FirstFailure(reply.value.writes);
      if w.Some? then Some(WriteFailed(w.value.tuple, w.value.error.value))
      else
        var d := FirstFailure(reply.value.deletes);
        if d.Some? then Some(DeleteFailed(d.value.tuple, d.value.error.value))
        else None
  }

  /** Scans the store's answer the way `sendTuples` does. */
  method CheckReply(reply: Result<WriteReply>) returns (r: Option<SendError>)
    ensures r == ReplyError(reply)
    ensures r.None? <==>
      (reply.Ok? && (forall i :: 0 <= i < |reply.value.writes| ==> reply.value.writes[i].error.None?)
       && (forall i :: 0 <= i < |reply.value.deletes| ==> reply.value.deletes[i].error.None?))
  {
    if reply.Err? {
      return Some(StoreFailed(reply.msg));
    }
    var ws, ds := reply.value.writes, reply.value.deletes;
    for i := 0 to |ws|
      invariant forall j :: 0 <= j < i ==> ws[j].error.None?
    {
      if ws[i].error.Some? {
        FirstFailureAt(ws, i);
        return Some(WriteFailed(ws[i].tuple, ws[i].error.value));
      }
    }
    for i := 0 to |ds|
      invariant forall j :: 0 <= j < i ==> ds[j].error.None?
    {
      if ds[i].error.Some? {
        FirstFailureAt(ds, i);
        return Some(DeleteFailed(ds[i].tuple, ds[i].error.value));
      }
    }
    return None;
  }

  /** The first failure is the failing entry with no failure before it. */
  lemma {:induction false} FirstFailureAt(rs: seq<TupleReply>, i: nat)
    requires i < |rs| && rs[i].error.Some?
    requires forall j :: 0 <= j < i ==> rs[j].error.None?
    ensures FirstFailure(rs) == Some(rs[i])
  {
    if i > 0 {
      FirstFailureAt(rs[1..], i - 1);
    }
  }

  // ---------------------------------------------------------------------------
  // Synchronisation
  // ---------------------------------------------------------------------------

  /** The user `diffObjects` puts in a tuple: the object's project for the project relation, else the server. */
  function UserFor(relation: Relation, o: Object): Object
  {
    if relation == ProjectRelation then ProjectObject(ProjectOf(o)) else ServerObject
  }

  function TupleFor(relation: Relation, o: Object): Tuple
  {
    Tuple(UserFor(relation, o), relation, o)
  }

  /** For the objects each relation is used with, the diff's tuple is the object's parent tuple. */
  lemma TupleForIsParent(relation: Relation, o: Object)
    requires o != ServerObject
    requires relation == ProjectRelation <==> ProjectScoped(o)
    ensures TupleFor(relation, o) == Parent(o)
  {
  }

  /** Tuples for the local objects whose rendering the store does not list, in local order. */
  function Missing(relation: Relation, remote: seq<string>, local: seq<Object>, render: Object -> string): seq<Tuple>
  {
    if |local| == 0 then []
    else
      var rest := Missing(relation, remote, local[..|local| - 1], render);
      var o := local[|local| - 1];
      if render(o) in remote then rest else rest + [TupleFor(relation, o)]
  }

  /** Tuples for the store's objects that are not local, in store order. */
  function Stale(relation: Relation, parsed: seq<Object>, local: seq<Object>): seq<Tuple>
  {
    if |parsed| == 0 then []
    else
      var rest := Stale(relation, parsed[..|parsed| - 1], local);
      var o := parsed[|parsed| - 1];
      if o in local then rest else rest + [TupleFor(relation, o)]
  }

  /** Parses the store's object strings, stopping at the first that does not parse. */
  function ParseAll(remote: seq<string>, parse: string -> Result<Object>): Result<seq<Object>>
  {
    if |remote| == 0 then Ok([])
    else
      var rest := ParseAll(remote[..|remote| - 1], parse);
      if rest.Err? then rest
      else
        var o := parse(remote[|remote| - 1]);
        if o.Err? then Err(o.msg) else Ok(rest.value + [o.value])
  }

  /** What `diffObjects` appends: the writes for missing objects and the deletions for stale ones. */
  function Diff(relation: Relation, remote: seq<string>, local: seq<Object>,
                render: Object -> string, parse: string -> Result<Object>): Result<(seq<Tuple>, seq<Tuple>)>
  {
    var parsed := ParseAll(remote, parse);
    if parsed.Err? then Err(parsed.msg)
    else Ok((Missing(relation, remote, local, render), Stale(relation, parsed.value, local)))
  }

  /**
   * Appends to `writes` and `deletions` the tuples that bring the store's
   * list `remote` in line with `local`.
   */
  method DiffObjects(relation: Relation, remote: seq<string>, local: seq<Object>,
                     render: Object -> string, parse: string -> Result<Object>,
                     writes: seq<Tuple>, deletions: seq<Tuple>)
    returns (r: Result<(seq<Tuple>, seq<Tuple>)>)
    ensures r == Then(Ok((writes, deletions)), Diff(relation, remote, local, render, parse))
  {
    var ws := AppendMissing(relation, remote, local, render, writes);
    var ds := AppendStale(relation, remote, local, parse, deletions);
    if ds.Err? {
      return Err(ds.msg);
    }
    return Ok((ws, ds.value));
  }

  /** The first half of the diff: a write for each local object the store does not list. */
  method AppendMissing(relation: Relation, remote: seq<string>, local: seq<Object>,
                       render: Object -> string, writes: seq<Tuple>)
    returns (ws: seq<Tuple>)
    ensures ws == writes + Missing(relation, remote, local, render)
  {
    var user := ServerObject;
    ws := writes;
    for i := 0 to |local|
      invariant ws == writes + Missing(relation, remote, local[..i], render)
      invariant relation == ServerRelation ==> user == ServerObject
    {
      assert local[..i + 1][..i] == local[..i];
      if render(local[i]) !in remote {
        if relation == ProjectRelation {
          user := ProjectObject(ProjectOf(local[i]));
        }
        ws := ws + [Tuple(user, relation, local[i])];
      }
    }
    assert local[..|local|] == local;
  }

  /** The second half of the diff: a deletion for each listed object that is not local. */
  method AppendStale(relation: Relation, remote: seq<string>, local: seq<Object>,
                     parse: string -> Result<Object>, deletions: seq<Tuple>)
    returns (r: Result<seq<Tuple>>)
    ensures var parsed := ParseAll(remote, parse);
      r == if parsed.Err? then Err(parsed.msg) else Ok(deletions + Stale(relation, parsed.value, local))
  {
    var user := ServerObject;
    var ds := deletions;
    var parsed: seq<Object> := [];
    for j := 0 to |remote|
      invariant ParseAll(remote[..j], parse) == Ok(parsed)
      invariant ds == deletions + Stale(relation, parsed, local)
      invariant relation == ServerRelation ==> user == ServerObject
    {
      var o := parse(remote[j]);
      ParseAllStep(remote, parse, j, parsed);
      if o.Err? {
        ParseAllStops(remote, parse, j + 1);
        assert ParseAll(remote, parse) == Err(o.msg);
        return Err(o.msg);
      }
      StaleStep(relation, parsed, o.value, local);
      if o.value !in local {
        if relation == ProjectRelation {
          user := ProjectObject(ProjectOf(o.value));
        }
        assert Tuple(user, relation, o.value) == TupleFor(relation, o.value);
        ds := ds + [Tuple(user, relation, o.value)];
      }
      assert ds == deletions + Stale(relation, parsed + [o.value], local);
      parsed := parsed + [o.value];
    }
    assert remote[..|remote|] == remote;
    assert ParseAll(remote, parse) == Ok(parsed);
    return Ok(ds);
  }

  /** One more string parsed: the list grows by its object, or the parse fails with its message. */
  lemma ParseAllStep(remote: seq<string>, parse: string -> Result<Object>, j: nat, parsed: seq<Object>)
    requires j < |remote| && ParseAll(remote[..j], parse) == Ok(parsed)
    ensures ParseAll(remote[..j + 1], parse) ==
      if parse(remote[j]).Err? then Err(parse(remote[j]).msg) else Ok(parsed + [parse(remote[j]).value])
  {
    assert remote[..j + 1][..j] == remote[..j];
  }

  /** One more listed object: a deletion is added exactly when it is not local. */
  lemma StaleStep(relation: Relation, parsed: seq<Object>, o: Object, local: seq<Object>)
    ensures Stale(relation, parsed + [o], local) ==
      Stale(relation, parsed, local) + (if o in local then [] else [TupleFor(relation, o)])
  {
    assert (parsed + [o])[..|parsed|] == parsed;
  }

  /** Once a prefix of the store's list fails to parse, the whole list fails with the same message. */
  lemma {:induction false} ParseAllStops(remote: seq<string>, parse: string -> Result<Object>, k: nat)
    requires k <= |remote| && ParseAll(remote[..k], parse).Err?
    ensures ParseAll(remote, parse) == ParseAll(remote[..k], parse)
    decreases |remote| - k
  {
    if k < |remote| {
      assert remote[..k + 1][..k] == remote[..k];
      ParseAllStops(remote, parse, k + 1);
    } else {
      assert remote[..k] == remote;
    }
  }

  /** The writes are exactly the tuples for local objects whose rendering the store does not list. */
  lemma {:induction false} MissingMeaning(relation: Relation, remote: seq<string>, local: seq<Object>,
                                          render: Object -> string, t: Tuple)
    ensures t in Missing(relation, remote, local, render) <==>
      exists o :: o in local && render(o) !in remote && t == TupleFor(relation, o)
  {
    if |local| > 0 {
      var init := local[..|local| - 1];
      MissingMeaning(relation, remote, init, render, t);
      assert local == init + [local[|local| - 1]];
      assert forall o :: o in local <==> o in init || o == local[|local| - 1];
    }
  }

  /** The deletions are exactly the tuples for the store's objects that are not local. */
  lemma {:induction false} StaleMeaning(relation: Relation, parsed: seq<Object>, local: seq<Object>, t: Tuple)
    ensures t in Stale(relation, parsed, local) <==>
      exists o :: o in parsed && o !in local && t == TupleFor(relation, o)
  {
    if |parsed| > 0 {
      var init := parsed[..|parsed| - 1];
      StaleMeaning(relation, init, local, t);
      assert parsed == init + [parsed[|parsed| - 1]];
      assert forall o :: o in parsed <==> o in init || o == parsed[|parsed| - 1];
    }
  }

  /** Every string the store lists parses, one object per string, each at the position of its string. */
  lemma {:induction false} ParseAllMeaning(remote: seq<string>, parse: string -> Result<Object>)
    ensures ParseAll(remote, parse).Ok? <==> forall i :: 0 <= i < |remote| ==> parse(remote[i]).Ok?
    ensures ParseAll(remote, parse).Ok? ==> |ParseAll(remote, parse).value| == |remote|
    ensures ParseAll(remote, parse).Ok? ==>
      forall i :: 0 <= i < |remote| ==> parse(remote[i]) == Ok(ParseAll(remote, parse).value[i])
  {
    if |remote| > 0 {
      var init := remote[..|remote| - 1];
      ParseAllMeaning(init, parse);
      assert forall i :: 0 <= i < |init| ==> init[i] == remote[i];
      if ParseAll(init, parse).Err? {
        var i :| 0 <= i < |init| && !parse(init[i]).Ok?;
        assert !parse(remote[i]).Ok?;
      }
    }
  }

  /** The daemon's own resources, by kind. */
  datatype Resources = Resources(
    certificates: seq<Object>, networkIntegrations: seq<Object>, storagePools: seq<Object>,
    projects: seq<Object>, images: seq<Object>, imageAliases: seq<Object>, instances: seq<Object>,
    networks: seq<Object>, networkZones: seq<Object>, networkACLs: seq<Object>,
    networkAddressSets: seq<Object>, profiles: seq<Object>, storageVolumes: seq<Object>,
    storageBuckets: seq<Object>)

  /** The store's replies to listing the objects under the server relation, by kind; a listing can fail. */
  datatype Listed = Listed(
    certificates: Result<seq<string>>, networkIntegrations: Result<seq<string>>,
    storagePools: Result<seq<string>>, projects: Result<seq<string>>)

  /** The project-level resources, in the order the sync joins them. */
  function ProjectLevel(res: Resources): seq<Object>
  {
    res.images + res.imageAliases + res.instances + res.networks + res.networkZones + res.networkACLs
    + res.networkAddressSets + res.profiles + res.storageVolumes + res.storageBuckets
  }

  /**
   * The store's project-level objects: for each project string it lists,
   * in order, the project is parsed and its objects listed
   * (`projectObjects`); the first parse or listing error ends the gathering.
   */
  function RemoteProjectLevel(projects: seq<string>, parse: string -> Result<Object>,
                              listProject: string -> Result<seq<string>>): Result<seq<string>>
  {
    if |projects| == 0 then Ok([])
    else match RemoteProjectLevel(projects[..|projects| - 1], parse, listProject)
      case Err(m) => Err(m)
      case Ok(before) =>
        var o := parse(projects[|projects| - 1]);
        if o.Err? then Err(o.msg)
        else
          var l := listProject(ProjectOf(o.value));
          if l.Err? then Err(l.msg) else Ok(before + l.value)
  }

  /** A nil slice when nothing was appended. */
  function NilIfEmpty(s: seq<Tuple>): (r: Option<seq<Tuple>>)
    ensures Slice(r) == s
  {
    if |s| == 0 then None else Some(s)
  }

  /** Appends a diff's tuples to those gathered so far; the first error wins. */
  function Then(acc: Result<(seq<Tuple>, seq<Tuple>)>, d: Result<(seq<Tuple>, seq<Tuple>)>)
    : (r: Result<(seq<Tuple>, seq<Tuple>)>)
    ensures acc.Err? ==> r == acc
    ensures acc.Ok? && d.Err? ==> r == Err(d.msg)
    ensures acc.Ok? && d.Ok? ==> r == Ok((acc.value.0 + d.value.0, acc.value.1 + d.value.1))
  {
    if acc.Err? then acc
    else if d.Err? then Err(d.msg)
    else Ok((acc.value.0 + d.value.0, acc.value.1 + d.value.1))
  }

  /** A diff against a listing: the listing's error, or the diff of what it lists. */
  function ListedDiff(relation: Relation, listing: Result<seq<string>>, local: seq<Object>,
                      render: Object -> string, parse: string -> Result<Object>): Result<(seq<Tuple>, seq<Tuple>)>
  {
    if listing.Err? then Err(listing.msg) else Diff(relation, listing.value, local, render, parse)
  }

  /**
   * The writes and deletions a full sync computes: the four server-level
   * kinds in turn, each listed then diffed, then all project-level objects
   * against what the store lists for its projects. The first error wins.
   */
  function SyncPlan(listed: Listed, res: Resources, render: Object -> string,
                    parse: string -> Result<Object>, listProject: string -> Result<seq<string>>)
    : Result<(seq<Tuple>, seq<Tuple>)>
  {
    var c := Then(Ok(([], [])), ListedDiff(ServerRelation, listed.certificates, res.certificates, render, parse));
    var n := Then(c, ListedDiff(ServerRelation, listed.networkIntegrations, res.networkIntegrations, render, parse));
    var p := Then(n, ListedDiff(ServerRelation, listed.storagePools, res.storagePools, render, parse));
    var q := Then(p, ListedDiff(ServerRelation, listed.projects, res.projects, render, parse));
    if q.Err? then q
    else Then(q, ListedDiff(ProjectRelation, RemoteProjectLevel(listed.projects.value, parse, listProject),
                            ProjectLevel(res), render, parse))
  }

  /** Lists the store's objects for each project it lists, as `syncResources` does. */
  method GatherProjectLevel(projects: seq<string>, parse: string -> Result<Object>,
                            listProject: string -> Result<seq<string>>)
    returns (r: Result<seq<string>>)
    ensures r == RemoteProjectLevel(projects, parse, listProject)
  {
    var remote: seq<string> := [];
    for i := 0 to |projects|
      invariant RemoteProjectLevel(projects[..i], parse, listProject) == Ok(remote)
    {
      assert projects[..i + 1][..i] == projects[..i];
      var project := parse(projects[i]);
      if project.Err? {
        RemoteStops(projects, parse, listProject, i + 1);
        return Err(project.msg);
      }
      var resources := listProject(ProjectOf(project.value));
      if resources.Err? {
        RemoteStops(projects, parse, listProject, i + 1);
        return Err(resources.msg);
      }
      remote := remote + resources.value;
    }
    assert projects[..|projects|] == projects;
    return Ok(remote);
  }

  /** Once a prefix of the projects fails, the whole gathering fails with the same message. */
  lemma {:induction false} RemoteStops(projects: seq<string>, parse: string -> Result<Object>,
                                       listProject: string -> Result<seq<string>>, k: nat)
    requires k <= |projects| && RemoteProjectLevel(projects[..k], parse, listProject).Err?
    ensures RemoteProjectLevel(projects, parse, listProject) == RemoteProjectLevel(projects[..k], parse, listProject)
    decreases |projects| - k
  {
    if k < |projects| {
      assert projects[..k + 1][..k] == projects[..k];
      RemoteStops(projects, parse, listProject, k + 1);
    } else {
      assert projects[..k] == projects;
    }
  }

  /**
   * The gathering succeeds exactly when every listed project parses and its
   * objects can be listed.
   */
  lemma {:induction false} RemoteProjectLevelMeaning(projects: seq<string>, parse: string -> Result<Object>,
                                                     listProject: string -> Result<seq<string>>)
    ensures RemoteProjectLevel(projects, parse, listProject).Ok? <==>
      forall i :: 0 <= i < |projects| ==> parse(projects[i]).Ok? && listProject(ProjectOf(parse(projects[i]).value)).Ok?
  {
    if |projects| > 0 {
      var init := projects[..|projects| - 1];
      RemoteProjectLevelMeaning(init, parse, listProject);
      assert forall i :: 0 <= i < |init| ==> init[i] == projects[i];
      if RemoteProjectLevel(init, parse, listProject).Err? {
        var i :| 0 <= i < |init| && !(parse(init[i]).Ok? && listProject(ProjectOf(parse(init[i]).value)).Ok?);
        assert !(parse(projects[i]).Ok? && listProject(ProjectOf(parse(projects[i]).value)).Ok?);
      }
    }
  }

  /**
   * `syncResources`: lists and diffs every kind, gathers the store's
   * project-level objects, diffs those, and returns the update to send.
   */
  method SyncResources(listed: Listed, res: Resources, render: Object -> string,
                       parse: string -> Result<Object>, listProject: string -> Result<seq<string>>)
    returns (r: Result<Update>)
    ensures var plan := SyncPlan(listed, res, render, parse, listProject);
      r == if plan.Err? then Err(plan.msg) else Ok(Update(NilIfEmpty(plan.value.0), NilIfEmpty(plan.value.1)))
  {
    if listed.certificates.Err? {
      return Err(listed.certificates.msg);
    }
    var c := DiffObjects(ServerRelation, listed.certificates.value, res.certificates, render, parse, [], []);
    if c.Err? {
      return Err(c.msg);
    }
    if listed.networkIntegrations.Err? {
      return Err(listed.networkIntegrations.msg);
    }
    var n := DiffObjects(ServerRelation, listed.networkIntegrations.value, res.networkIntegrations, render, parse,
                         c.value.0, c.value.1);
    if n.Err? {
      return Err(n.msg);
    }
    if listed.storagePools.Err? {
      return Err(listed.storagePools.msg);
    }
    var p := DiffObjects(ServerRelation, listed.storagePools.value, res.storagePools, render, parse,
                         n.value.0, n.value.1);
    if p.Err? {
      return Err(p.msg);
    }
    if listed.projects.Err? {
      return Err(listed.projects.msg);
    }
    var q := DiffObjects(ServerRelation, listed.projects.value, res.projects, render, parse, p.value.0, p.value.1);
    if q.Err? {
      return Err(q.msg);
    }
    var remote := GatherProjectLevel(listed.projects.value, parse, listProject);
    if remote.Err? {
      return Err(remote.msg);
    }
    var l := DiffObjects(ProjectRelation, remote.value, ProjectLevel(res), render, parse, q.value.0, q.value.1);
    if l.Err? {
      return Err(l.msg);
    }
    return Ok(Update(NilIfEmpty(l.value.0), NilIfEmpty(l.value.1)));
  }

  /** Every local object's rendering is listed by the store. */
  predicate AllListed(local: seq<Object>, remote: seq<string>, render: Object -> string)
  {
    |local| == 0 || (AllListed(local[..|local| - 1], remote, render) && render(local[|local| - 1]) in remote)
  }

  /** Every string the store lists parses to a local object. */
  predicate AllLocal(remote: seq<string>, local: seq<Object>, parse: string -> Result<Object>)
  {
    |remote| == 0
    || (AllLocal(remote[..|remote| - 1], local, parse) && parse(remote[|remote| - 1]).Ok?
        && parse(remote[|remote| - 1]).value in local)
  }

  /** The store's list and the local objects agree both ways. */
  predicate InStep(remote: seq<string>, local: seq<Object>, render: Object -> string, parse: string -> Result<Object>)
  {
    AllListed(local, remote, render) && AllLocal(remote, local, parse)
  }

  /** When every local object is listed, nothing is written. */
  lemma {:induction false} MissingNone(relation: Relation, remote: seq<string>, local: seq<Object>,
                                       render: Object -> string)
    requires AllListed(local, remote, render)
    ensures Missing(relation, remote, local, render) == []
  {
    if |local| > 0 {
      MissingNone(relation, remote, local[..|local| - 1], render);
    }
  }

  /** When every listed string parses to a local object, nothing is deleted. */
  lemma {:induction false} StaleNone(relation: Relation, remote: seq<string>, local: seq<Object>,
                                     parse: string -> Result<Object>)
    requires AllLocal(remote, local, parse)
    ensures ParseAll(remote, parse).Ok? && Stale(relation, ParseAll(remote, parse).value, local) == []
  {
    if |remote| > 0 {
      var init := remote[..|remote| - 1];
      StaleNone(relation, init, local, parse);
      var p := ParseAll(init, parse).value;
      var o := parse(remote[|remote| - 1]).value;
      assert (p + [o])[..|p|] == p;
    }
  }

  /** A diff of lists in step appends nothing. */
  lemma DiffInStep(relation: Relation, remote: seq<string>, local: seq<Object>,
                   render: Object -> string, parse: string -> Result<Object>)
    requires InStep(remote, local, render, parse)
    ensures Diff(relation, remote, local, render, parse) == Ok(([], []))
  {
    MissingNone(relation, remote, local, render);
    StaleNone(relation, remote, local, parse);
  }

  /** A store already in step with the daemon gets no request from a sync. */
  lemma SyncInStepSendsNothing(listed: Listed, res: Resources, render: Object -> string,
                               parse: string -> Result<Object>, listProject: string -> Result<seq<string>>,
                               online: bool)
    requires listed.certificates.Ok? && InStep(listed.certificates.value, res.certificates, render, parse)
    requires listed.networkIntegrations.Ok? && InStep(listed.networkIntegrations.value, res.networkIntegrations, render, parse)
    requires listed.storagePools.Ok? && InStep(listed.storagePools.value, res.storagePools, render, parse)
    requires listed.projects.Ok? && InStep(listed.projects.value, res.projects, render, parse)
    requires RemoteProjectLevel(listed.projects.value, parse, listProject).Ok?
    requires InStep(RemoteProjectLevel(listed.projects.value, parse, listProject).value, ProjectLevel(res), render, parse)
    ensures SyncPlan(listed, res, render, parse, listProject) == Ok(([], []))
    ensures Dispatch(online, Update(NilIfEmpty([]), NilIfEmpty([]))).None?
  {
    var e: seq<Tuple> := [];
    assert e + e == e;
    var none: Result<(seq<Tuple>, seq<Tuple>)> := Ok((e, e));
    assert Then(none, none) == Ok((e + e, e + e)) == none;
    DiffInStep(ServerRelation, listed.certificates.value, res.certificates, render, parse);
    var c := Then(none, ListedDiff(ServerRelation, listed.certificates, res.certificates, render, parse));
    assert c == none;
    DiffInStep(ServerRelation, listed.networkIntegrations.value, res.networkIntegrations, render, parse);
    var n := Then(c, ListedDiff(ServerRelation, listed.networkIntegrations, res.networkIntegrations, render, parse));
    assert n == none;
    DiffInStep(ServerRelation, listed.storagePools.value, res.storagePools, render, parse);
    var p := Then(n, ListedDiff(ServerRelation, listed.storagePools, res.storagePools, render, parse));
    assert p == none;
    DiffInStep(ServerRelation, listed.projects.value, res.projects, render, parse);
    var q := Then(p, ListedDiff(ServerRelation, listed.projects, res.projects, render, parse));
    assert q == none;
    var remote := RemoteProjectLevel(listed.projects.value, parse, listProject);
    DiffInStep(ProjectRelation, remote.value, ProjectLevel(res), render, parse);
    assert SyncPlan(listed, res, render, parse, listProject) ==
      Then(q, ListedDiff(ProjectRelation, remote, ProjectLevel(res), render, parse));
  }

  /** A listing that fails ends the sync with its error once the kinds before it went through. */
  lemma ListingFailureEndsSync(listed: Listed, res: Resources, render: Object -> string,
                               parse: string -> Result<Object>, listProject: string -> Result<seq<string>>)
    ensures listed.certificates.Err? ==> SyncPlan(listed, res, render, parse, listProject) == Err(listed.certificates.msg)
    ensures SyncPlan(listed, res, render, parse, listProject).Ok? ==>
      listed.certificates.Ok? && listed.networkIntegrations.Ok? && listed.storagePools.Ok? && listed.projects.Ok? &&
      RemoteProjectLevel(listed.projects.value, parse, listProject).Ok?
  {
  }

  // ---------------------------------------------------------------------------
  // Instance access
  // ---------------------------------------------------------------------------

  /** The instance relations asked for, strongest first. */
  const AccessRelations: seq<string> := ["admin", "operator", "user", "viewer"]

  /** The store's answer to listing the users with one relation to an instance. */
  datatype UsersReply =
    | Users(ids: seq<string>)
    | RelationNotFound
    | UndefinedEndpoint
    | Failed(msg: string, typeName: string)  // the error's text and its Go type name

  const ErrNoListUsers := "OpenFGA server doesn't support listing users"

  /** The wrapped error is followed by the name of its type. */
  function ErrListFailed(relation: string, msg: string, typeName: string): string
  {
    "Failed to list objects with relation \"" + relation + "\": " + msg + ": " + typeName
  }

  /** The user ids a reply lists; an undefined relation lists none. */
  function ListedIds(reply: UsersReply): seq<string>
  {
    if reply.Users? then reply.ids else []
  }

  /** Records `relation` for each listed, non-empty id not seen before. */
  function Merge(entries: map<string, string>, relation: string, ids: seq<string>): map<string, string>
  {
    if |ids| == 0 then entries
    else
      var m := Merge(entries, relation, ids[..|ids| - 1]);
      var id := ids[|ids| - 1];
      if id == "" || id in m then m else m[id := relation]
  }

  /** The entries after asking for the first `k` relations. */
  function AccessUpTo(listUsers: string -> UsersReply, k: nat): Result<map<string, string>>
    requires k <= |AccessRelations|
  {
    if k == 0 then Ok(map[])
    else
      var before := AccessUpTo(listUsers, k - 1);
      var relation := AccessRelations[k - 1];
      var reply := listUsers(relation);
      if before.Err? then before
      else if reply.UndefinedEndpoint? then Err(ErrNoListUsers)
      else if reply.Failed? then Err(ErrListFailed(relation, reply.msg, reply.typeName))
      else Ok(Merge(before.value, relation, ListedIds(reply)))
  }

  /** Each user's role on an instance, from the store's listings for every relation. */
  function InstanceAccess(listUsers: string -> UsersReply): Result<map<string, string>>
  {
    AccessUpTo(listUsers, |AccessRelations|)
  }

  /** `GetInstanceAccess`: asks for each relation in turn and keeps each user's first. */
  method GetInstanceAccess(listUsers: string -> UsersReply) returns (r: Result<map<string, string>>)
    ensures r == InstanceAccess(listUsers)
  {
    var entries: map<string, string> := map[];
    for k := 0 to |AccessRelations|
      invariant AccessUpTo(listUsers, k) == Ok(entries)
    {
      var relation := AccessRelations[k];
      var reply := listUsers(relation);
      if reply.UndefinedEndpoint? || reply.Failed? {
        AccessStops(listUsers, k + 1);
        return if reply.UndefinedEndpoint? then Err(ErrNoListUsers) else Err(ErrListFailed(relation, reply.msg, reply.typeName));
      }
      var ids := ListedIds(reply);
      ghost var before := entries;
      for i := 0 to |ids|
        invariant entries == Merge(before, relation, ids[..i])
      {
        assert ids[..i + 1][..i] == ids[..i];
        if ids[i] != "" && ids[i] !in entries {
          entries := entries[ids[i] := relation];
        }
      }
      assert ids[..|ids|] == ids;
    }
    return Ok(entries);
  }

  /** Once a listing fails, the later relations do not change the result. */
  lemma {:induction false} AccessStops(listUsers: string -> UsersReply, k: nat)
    requires k <= |AccessRelations| && AccessUpTo(listUsers, k).Err?
    ensures InstanceAccess(listUsers) == AccessUpTo(listUsers, k)
    decreases |AccessRelations| - k
  {
    if k < |AccessRelations| {
      AccessStops(listUsers, k + 1);
    }
  }

  /** A merge keeps what was there and adds each new non-empty id with the given relation. */
  lemma {:induction false} MergeMeaning(entries: map<string, string>, relation: string, ids: seq<string>, id: string)
    ensures id in Merge(entries, relation, ids) <==> id in entries || (id != "" && id in ids)
    ensures id in entries ==> Merge(entries, relation, ids)[id] == entries[id]
    ensures id !in entries && id in Merge(entries, relation, ids) ==> Merge(entries, relation, ids)[id] == relation
  {
    if |ids| > 0 {
      var init := ids[..|ids| - 1];
      MergeMeaning(entries, relation, init, id);
      assert ids == init + [ids[|ids| - 1]];
    }
  }

  /** The index of the first of the first `k` relations whose listing names `id`. */
  function FirstListing(listUsers: string -> UsersReply, id: string, k: nat): (r: Option<nat>)
    requires k <= |AccessRelations|
    ensures r.Some? ==> r.value < k && id in ListedIds(listUsers(AccessRelations[r.value]))
    ensures r.Some? ==> forall j :: 0 <= j < r.value ==> id !in ListedIds(listUsers(AccessRelations[j]))
    ensures r.None? ==> forall j :: 0 <= j < k ==> id !in ListedIds(listUsers(AccessRelations[j]))
  {
    if k == 0 then None
    else
      var earlier := FirstListing(listUsers, id, k - 1);
      if earlier.Some? then earlier
      else if id in ListedIds(listUsers(AccessRelations[k - 1])) then Some(k - 1)
      else None
  }

  /**
   * A user has an entry exactly when its id is non-empty and some relation
   * lists it, and the entry is the strongest relation that does.
   */
  lemma {:induction false} AccessPrecedence(listUsers: string -> UsersReply, id: string, k: nat)
    requires k <= |AccessRelations|
    requires AccessUpTo(listUsers, k).Ok?
    ensures id in AccessUpTo(listUsers, k).value <==> id != "" && FirstListing(listUsers, id, k).Some?
    ensures id in AccessUpTo(listUsers, k).value ==>
      AccessUpTo(listUsers, k).value[id] == AccessRelations[FirstListing(listUsers, id, k).value]
  {
    if k > 0 {
      AccessPrecedence(listUsers, id, k - 1);
      var before := AccessUpTo(listUsers, k - 1).value;
      MergeMeaning(before, AccessRelations[k - 1], ListedIds(listUsers(AccessRelations[k - 1])), id);
    }
  }

  /** The instance's access list gives each user the strongest relation listing it, and skips empty ids. */
  lemma InstanceAccessPrecedence(listUsers: string -> UsersReply, id: string)
    requires InstanceAccess(listUsers).Ok?
    ensures id in InstanceAccess(listUsers).value <==> id != "" && FirstListing(listUsers, id, 4).Some?
    ensures id in InstanceAccess(listUsers).value ==>
      InstanceAccess(listUsers).value[id] == AccessRelations[FirstListing(listUsers, id, 4).value]
  {
    AccessPrecedence(listUsers, id, 4);
  }

  /** Listing fails exactly when some relation's listing fails outright. */
  lemma {:induction false} AccessFails(listUsers: string -> UsersReply, k: nat)
    requires k <= |AccessRelations|
    ensures AccessUpTo(listUsers, k).Err? <==>
      exists j :: 0 <= j < k && (listUsers(AccessRelations[j]).UndefinedEndpoint? || listUsers(AccessRelations[j]).Failed?)
  {
    if k > 0 {
      AccessFails(listUsers, k - 1);
    }
  }
}
