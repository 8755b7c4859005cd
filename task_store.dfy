/**
 * The task store: a local task map that always exists, a remote (synced)
 * task map created on first sign-in, and a pointer saying which of the two
 * the UI reads and writes. The sync machinery behind the remote map is
 * abstracted away: the remote map is a plain map and the backend client an
 * opaque identity.
 */
module TaskStore {
  import opened Wrappers

  type TaskId = string
  type UserId = string

  /** The identity of a backend client object. A falsy client is `None`. */
  datatype ClientId = ClientId(handle: nat)

  /** A task row: `id`, `task` (its text), `is_done` and `owner_id`. */
  datatype Task = Task(id: Option<TaskId>, task: Option<string>, isDone: bool, ownerId: Option<UserId>)

  /**
   * What `store$[id].is_done.set(prev => !prev)` leaves at a key that held no
   * record: the container creates the missing record, holding only
   * `is_done: true`.
   */
  const Orphan: Task := Task(None, None, true, None)

  /** The `task && task.id` filter of `getTasksArray`. */
  predicate Listed(t: Task) {
    t.id.Some? && t.id.value != ""
  }

  /** Every record sits under its own non-empty id, or is an orphan with no id. */
  ghost predicate WellKeyed(m: map<TaskId, Task>) {
    forall k :: k in m ==> m[k].id.None? || (m[k].id.value == k && k != "")
  }

  /** The keys whose records `getTasksArray` returns. */
  ghost function ListedKeys(m: map<TaskId, Task>): set<TaskId> {
    set k | k in m && Listed(m[k])
  }

  /** The map after `toggleDone(id)`. */
  function Toggled(m: map<TaskId, Task>, id: TaskId): map<TaskId, Task> {
    if id in m then m[id := m[id].(isDone := !m[id].isDone)] else m[id := Orphan]
  }

  /** The record `addTask` writes. */
  function NewTask(id: TaskId, text: string, owner: Option<UserId>): Task {
    Task(Some(id), Some(text), false, owner)
  }

  /**
   * The uuids `uuidv4()` draws while migrating `local`, each mapped to the
   * orphan it is drawn for: every orphan gets exactly one, and none is empty
   * or clashes with a local key.
   */
  ghost predicate FreshUuids(local: map<TaskId, Task>, uuids: map<TaskId, TaskId>) {
    && (forall j :: j in uuids ==> j != "" && j !in local && uuids[j] in local && local[uuids[j]].id.None?)
    && Orphans(local) <= uuids.Values
    && |uuids| == |Orphans(local)|
  }

  /** The keys of the records that have no id. */
  ghost function Orphans(local: map<TaskId, Task>): set<TaskId> {
    set k | k in local && local[k].id.None?
  }

  /** No two uuids are drawn for the same orphan. */
  lemma UuidsDistinct(local: map<TaskId, Task>, uuids: map<TaskId, TaskId>, j1: TaskId, j2: TaskId)
    requires FreshUuids(local, uuids)
    requires j1 in uuids && j2 in uuids && uuids[j1] == uuids[j2]
    ensures j1 == j2
  {
    if j1 != j2 {
      CollisionShrinksValues(uuids, j1, j2);
      SubsetSize(Orphans(local), uuids.Values);
      assert false;
    }
  }

  lemma Preimage<K, V>(m: map<K, V>, v: V) returns (j: K)
    requires v in m.Values
    ensures j in m && m[j] == v
  {
    j :| j in m && m[j] == v;
  }

  lemma Image<K, V>(m: map<K, V>, j: K)
    requires j in m
    ensures m[j] in m.Values
  {
  }

  /** A map with two keys sharing a value has fewer values than keys. */
  lemma CollisionShrinksValues<K, V>(m: map<K, V>, j1: K, j2: K)
    requires j1 in m && j2 in m && j1 != j2 && m[j1] == m[j2]
    ensures |m.Values| < |m|
  {
    var rest := m - {j1};
    assert rest.Values == m.Values by {
      forall v | v in m.Values ensures v in rest.Values {
        var j := Preimage(m, v);
        Image(rest, if j == j1 then j2 else j);
      }
      forall v | v in rest.Values ensures v in m.Values {
        var j := Preimage(rest, v);
        Image(m, j);
      }
    }
    ValuesAtMostKeys(rest);
    assert rest.Keys == m.Keys - {j1};
  }

  /** A map has at most as many values as keys. */
  lemma {:induction false} ValuesAtMostKeys<K, V>(m: map<K, V>)
    ensures |m.Values| <= |m|
    decreases |m|
  {
    if |m| > 0 {
      var k :| k in m;
      var rest := m - {k};
      assert rest.Keys == m.Keys - {k};
      ValuesAtMostKeys(rest);
      assert m.Values <= rest.Values + {m[k]} by {
        forall v | v in m.Values ensures v in rest.Values + {m[k]} {
          var j := Preimage(m, v);
          if j != k {
            Image(rest, j);
          }
        }
      }
      SubsetSize(m.Values, rest.Values + {m[k]});
    }
  }

  /** A subset is no larger than its superset. */
  lemma SubsetSize<T>(a: set<T>, b: set<T>)
    requires a <= b
    ensures |a| <= |b|
  {
    assert b == a + (b - a);
  }

  /** `{...task, id, owner_id: userId}`. */
  function Rehomed(t: Task, id: TaskId, user: UserId): Task {
    t.(id := Some(id), ownerId := Some(user))
  }

  /**
   * The remote records written for the local keys in `done`: a record with
   * an id under that id (which is its key), an orphan under its uuid.
   */
  ghost function MigratedPart(local: map<TaskId, Task>, user: UserId, uuids: map<TaskId, TaskId>, done: set<TaskId>): map<TaskId, Task> {
    KeptPart(local, user, done) + MintedPart(local, user, uuids, done)
  }

  /** The records of `done` that had an id. */
  ghost function KeptPart(local: map<TaskId, Task>, user: UserId, done: set<TaskId>): map<TaskId, Task> {
    map k | k in done && k in local && local[k].id.Some? :: Rehomed(local[k], k, user)
  }

  /** The orphans of `done`, each under its uuid. */
  ghost function MintedPart(local: map<TaskId, Task>, user: UserId, uuids: map<TaskId, TaskId>, done: set<TaskId>): map<TaskId, Task> {
    map j | j in uuids && uuids[j] in done && uuids[j] in local :: Rehomed(local[uuids[j]], j, user)
  }

  /** The new remote map after migrating all of `local` for `user`. */
  ghost function Migrated(local: map<TaskId, Task>, user: UserId, uuids: map<TaskId, TaskId>): map<TaskId, Task> {
    MigratedPart(local, user, uuids, local.Keys)
  }

  /** The key `task.id ?? uuidv4()` gives the record at local key `k`. */
  ghost predicate IsMigratedKey(local: map<TaskId, Task>, uuids: map<TaskId, TaskId>, k: TaskId, key: TaskId)
    requires k in local
  {
    if local[k].id.Some? then key == local[k].id.value else key in uuids && uuids[key] == k
  }

  /** One more record migrated: it lands under a key no earlier record took. */
  lemma MigratedStep(local: map<TaskId, Task>, user: UserId, uuids: map<TaskId, TaskId>, done: set<TaskId>, k: TaskId, key: TaskId)
    requires WellKeyed(local) && FreshUuids(local, uuids) && done <= local.Keys
    requires k in local && k !in done && IsMigratedKey(local, uuids, k, key)
    ensures key !in MigratedPart(local, user, uuids, done)
    ensures MigratedPart(local, user, uuids, done + {k})
         == MigratedPart(local, user, uuids, done)[key := Rehomed(local[k], key, user)]
  {
    var kept, minted := KeptPart(local, user, done), MintedPart(local, user, uuids, done);
    var v := Rehomed(local[k], key, user);
    KeptStep(local, user, done, k);
    MintedStep(local, user, uuids, done, k, key);
    if local[k].id.Some? {
      assert key == k;
      assert key !in minted && key !in kept by {
        assert k !in uuids;
      }
      UpdateLeft(kept, minted, key, v);
    } else {
      assert key !in kept && key !in minted by {
        assert key !in local;
      }
      assert kept + minted[key := v] == (kept + minted)[key := v];
    }
  }

  /** The kept part grows by the record at `k` exactly when it had an id. */
  lemma KeptStep(local: map<TaskId, Task>, user: UserId, done: set<TaskId>, k: TaskId)
    requires k in local && k !in done
    ensures KeptPart(local, user, done + {k}) ==
      if local[k].id.Some? then KeptPart(local, user, done)[k := Rehomed(local[k], k, user)]
      else KeptPart(local, user, done)
  {
  }

  /** The minted part grows by the record at `k` exactly when it was an orphan. */
  lemma MintedStep(local: map<TaskId, Task>, user: UserId, uuids: map<TaskId, TaskId>, done: set<TaskId>, k: TaskId, key: TaskId)
    requires FreshUuids(local, uuids)
    requires k in local && k !in done && IsMigratedKey(local, uuids, k, key)
    ensures MintedPart(local, user, uuids, done + {k}) ==
      if local[k].id.None? then MintedPart(local, user, uuids, done)[key := Rehomed(local[k], key, user)]
      else MintedPart(local, user, uuids, done)
  {
    if local[k].id.None? {
      forall j | j in uuids && uuids[j] == k ensures j == key {
        UuidsDistinct(local, uuids, j, key);
      }
    }
  }

  /** Updating the left operand of a union at a key the right one lacks. */
  lemma UpdateLeft<K, V>(a: map<K, V>, b: map<K, V>, key: K, v: V)
    requires key !in b
    ensures a[key := v] + b == (a + b)[key := v]
  {
  }

  /**
   * `r` is a migration of `local` for `user`: each record with an id is
   * under that id and each orphan under its uuid, owned by the user and
   * otherwise unchanged, and nothing else is in `r`.
   */
  ghost predicate IsMigrationOf(r: map<TaskId, Task>, local: map<TaskId, Task>, user: UserId, uuids: map<TaskId, TaskId>) {
    && (forall k :: k in local && local[k].id.Some? ==> k in r && r[k] == local[k].(ownerId := Some(user)))
    && (forall j :: j in uuids && uuids[j] in local ==>
          j in r && r[j] == local[uuids[j]].(id := Some(j), ownerId := Some(user)))
    && (forall j :: j in r ==> (j in local && local[j].id.Some?) || j in uuids)
  }

  /**
   * Migration: the remote map holds exactly the local records, as many as
   * there were; a record that had an id keeps it as its key, an orphan gets
   * its uuid; every migrated record is owned by the user, keeps its text
   * and completion flag, sits under its own id and is listed by
   * `getTasksArray`, orphans included.
   */
  lemma MigratedContents(local: map<TaskId, Task>, user: UserId, uuids: map<TaskId, TaskId>)
    requires WellKeyed(local) && FreshUuids(local, uuids)
    ensures IsMigrationOf(Migrated(local, user, uuids), local, user, uuids)
    ensures |Migrated(local, user, uuids)| == |local|
    ensures WellKeyed(Migrated(local, user, uuids))
    ensures var r := Migrated(local, user, uuids);
      forall j :: j in r ==> Listed(r[j]) && r[j].ownerId == Some(user)
  {
    KeptRecords(local, user, uuids);
    MintedRecords(local, user, uuids);
    MigratedKeysCovered(local, user, uuids);
    MigratedRecordsOwned(local, user, uuids);
    MigratedCount(local, user, uuids);
  }

  /** A record that had an id is under that id, owned by the user, otherwise unchanged. */
  lemma KeptRecords(local: map<TaskId, Task>, user: UserId, uuids: map<TaskId, TaskId>)
    requires WellKeyed(local) && FreshUuids(local, uuids)
    ensures var r := Migrated(local, user, uuids);
      forall k :: k in local && local[k].id.Some? ==> k in r && r[k] == local[k].(ownerId := Some(user))
  {
    var kept, minted := KeptPart(local, user, local.Keys), MintedPart(local, user, uuids, local.Keys);
    var r: map<TaskId, Task> := kept + minted;
    forall k | k in local && local[k].id.Some? ensures k in r && r[k] == local[k].(ownerId := Some(user)) {
      assert k !in uuids;
      assert k !in minted;
    }
  }

  /** An orphan is under its uuid, owned by the user, otherwise unchanged. */
  lemma MintedRecords(local: map<TaskId, Task>, user: UserId, uuids: map<TaskId, TaskId>)
    requires FreshUuids(local, uuids)
    ensures var r := Migrated(local, user, uuids);
      forall j :: j in uuids && uuids[j] in local ==>
        j in r && r[j] == local[uuids[j]].(id := Some(j), ownerId := Some(user))
  {
  }

  /** Every migrated key comes from a record with an id or from a uuid. */
  lemma MigratedKeysCovered(local: map<TaskId, Task>, user: UserId, uuids: map<TaskId, TaskId>)
    ensures forall j :: j in Migrated(local, user, uuids) ==>
      (j in local && local[j].id.Some?) || j in uuids
  {
  }

  /** Every migrated record sits under its own non-empty id and is owned by the user. */
  lemma MigratedRecordsOwned(local: map<TaskId, Task>, user: UserId, uuids: map<TaskId, TaskId>)
    requires WellKeyed(local) && FreshUuids(local, uuids)
    ensures var r := Migrated(local, user, uuids);
      forall j :: j in r ==> r[j].id == Some(j) && j != "" && r[j].ownerId == Some(user)
  {
    var kept, minted := KeptPart(local, user, local.Keys), MintedPart(local, user, uuids, local.Keys);
    var r: map<TaskId, Task> := kept + minted;
    forall j | j in r ensures r[j].id == Some(j) && j != "" && r[j].ownerId == Some(user) {
      if j !in minted {
        assert j in local && local[j].id == Some(j);
      }
    }
  }

  /** Migration loses no record: there are as many migrated records as local ones. */
  lemma MigratedCount(local: map<TaskId, Task>, user: UserId, uuids: map<TaskId, TaskId>)
    requires FreshUuids(local, uuids)
    ensures |Migrated(local, user, uuids)| == |local|
  {
    var kept, minted := KeptPart(local, user, local.Keys), MintedPart(local, user, uuids, local.Keys);
    KeptKeys(local, user);
    MintedKeys(local, user, uuids);
    assert Keyed(local) !! uuids.Keys;
    DisjointMapsSize(kept, minted);
    LocalSize(local);
  }

  /** The tasks that already carry an id. */
  ghost function Keyed(local: map<TaskId, Task>): set<TaskId> {
    set k | k in local && local[k].id.Some?
  }

  lemma KeptKeys(local: map<TaskId, Task>, user: UserId)
    ensures KeptPart(local, user, local.Keys).Keys == Keyed(local)
  {
  }

  lemma MintedKeys(local: map<TaskId, Task>, user: UserId, uuids: map<TaskId, TaskId>)
    requires FreshUuids(local, uuids)
    ensures MintedPart(local, user, uuids, local.Keys).Keys == uuids.Keys
  {
  }

  /** Every task either carries an id or is an orphan. */
  lemma LocalSize(local: map<TaskId, Task>)
    ensures |local| == |Keyed(local)| + |Orphans(local)|
  {
    assert local.Keys == Keyed(local) + Orphans(local);
    assert Keyed(local) !! Orphans(local);
  }

  lemma DisjointMapsSize<K, V>(a: map<K, V>, b: map<K, V>)
    requires a.Keys !! b.Keys
    ensures |a + b| == |a| + |b|
  {
    assert (a + b).Keys == a.Keys + b.Keys;
  }

  lemma MigrationIsMigrated(r: map<TaskId, Task>, local: map<TaskId, Task>, user: UserId, uuids: map<TaskId, TaskId>)
    requires WellKeyed(local) && FreshUuids(local, uuids)
    requires IsMigrationOf(r, local, user, uuids)
    ensures r == Migrated(local, user, uuids)
  {
    var m := Migrated(local, user, uuids);
    assert forall j :: j in m ==> j in r && r[j] == m[j] by {
      KeptRecords(local, user, uuids);
      MintedRecords(local, user, uuids);
      MigratedKeysCovered(local, user, uuids);
    }
    assert forall j :: j in r ==> j in m by {
      KeptRecords(local, user, uuids);
      MintedRecords(local, user, uuids);
    }
    SameMaps(m, r);
  }

  /** Two maps with the same keys that agree on every key are equal. */
  lemma SameMaps<K, V>(a: map<K, V>, b: map<K, V>)
    requires forall j :: j in a ==> j in b && b[j] == a[j]
    requires forall j :: j in b ==> j in a
    ensures a == b
  {
  }

  /** Toggling a record twice restores the map. */
  lemma ToggleTwice(m: map<TaskId, Task>, id: TaskId)
    requires id in m
    ensures Toggled(Toggled(m, id), id) == m
  {
    assert Toggled(Toggled(m, id), id)[id] == m[id];
  }

  /**
   * Toggling flips `is_done` of that record only and never changes which
   * records are listed: toggling a missing id adds an orphan, which the
   * listing filters out.
   */
  lemma ToggleEffect(m: map<TaskId, Task>, id: TaskId)
    requires WellKeyed(m)
    ensures var r := Toggled(m, id);
      && WellKeyed(r)
      && r.Keys == m.Keys + {id}
      && (forall k :: k in m && k != id ==> r[k] == m[k])
      && (id in m ==> r[id].isDone == !m[id].isDone && r[id].(isDone := m[id].isDone) == m[id])
      && ListedKeys(r) == ListedKeys(m)
  {
  }

  /** A new record under a fresh id adds exactly one listed record. */
  lemma {:induction false} AddListsOneMore(m: map<TaskId, Task>, id: TaskId, text: string, owner: Option<UserId>)
    requires WellKeyed(m) && id != "" && id !in m
    ensures var r := m[id := NewTask(id, text, owner)];
      && WellKeyed(r)
      && ListedKeys(r) == ListedKeys(m) + {id}
      && |ListedKeys(r)| == |ListedKeys(m)| + 1
  {
    var r := m[id := NewTask(id, text, owner)];
    assert ListedKeys(r) == ListedKeys(m) + {id};
  }

  /**
   * The migration loop of `enableTaskSync`: every local record is written
   * to the new remote map under `task.id ?? uuidv4()`, owned by the user.
   */
  method MigrateTasks(source: map<TaskId, Task>, userId: UserId, uuids: map<TaskId, TaskId>)
    returns (migrated: map<TaskId, Task>)
    requires WellKeyed(source) && FreshUuids(source, uuids)
    ensures migrated == Migrated(source, userId, uuids)
  {
    migrated := map[];
    var pending := source.Keys;
    while pending != {}
      invariant pending <= source.Keys
      invariant migrated == MigratedPart(source, userId, uuids, source.Keys - pending)
      decreases |pending|
    {
      var k :| k in pending;
      var id, next := MigrateRecord(source, k, userId, uuids, migrated);
      PendingStep(source, userId, uuids, pending, k, id);
      migrated, pending := next, pending - {k};
    }
    assert source.Keys - pending == source.Keys;
  }

  /** The loop invariant of `MigrateTasks` survives migrating the record at `k`. */
  lemma PendingStep(source: map<TaskId, Task>, user: UserId, uuids: map<TaskId, TaskId>,
                    pending: set<TaskId>, k: TaskId, id: TaskId)
    requires WellKeyed(source) && FreshUuids(source, uuids) && pending <= source.Keys
    requires k in pending && IsMigratedKey(source, uuids, k, id)
    ensures MigratedPart(source, user, uuids, source.Keys - (pending - {k}))
         == MigratedPart(source, user, uuids, source.Keys - pending)[id := Rehomed(source[k], id, user)]
  {
    var done := source.Keys - pending;
    TakeOne(source.Keys, pending, k);
    MigratedStep(source, user, uuids, done, k, id);
  }

  /** Moving `k` out of `pending` moves it into what is done. */
  lemma TakeOne<T>(all: set<T>, pending: set<T>, k: T)
    requires k in pending && pending <= all
    ensures k !in all - pending && all - pending <= all
    ensures (all - pending) + {k} == all - (pending - {k})
  {
  }

  /**
   * The `forEach` callback: the record at local key `k` is written to the
   * remote map under `task.id ?? uuidv4()` as `{...task, id, owner_id}`.
   */
  method MigrateRecord(source: map<TaskId, Task>, k: TaskId, userId: UserId, uuids: map<TaskId, TaskId>,
                       remote: map<TaskId, Task>)
    returns (id: TaskId, remote': map<TaskId, Task>)
    requires FreshUuids(source, uuids) && k in source
    ensures IsMigratedKey(source, uuids, k, id)
    ensures remote' == remote[id := Rehomed(source[k], id, userId)]
  {
    var task := source[k];
    if task.id.Some? {
      id := task.id.value;
    } else {
      assert k in Orphans(source);
      id :| id in uuids && uuids[id] == k;
    }
    remote' := remote[id := Rehomed(task, id, userId)];
  }

  /** Legend-State's `assign(patch)`: a shallow merge in which the patch's keys win. */
  function Assign(m: map<TaskId, Task>, patch: map<TaskId, Task>): (r: map<TaskId, Task>)
    ensures r.Keys == m.Keys + patch.Keys
    ensures forall k :: k in patch ==> r[k] == patch[k]
    ensures forall k :: k in m && k !in patch ==> r[k] == m[k]
  {
    m + patch
  }

  /**
   * `localTasks$.assign({})`, the step meant to clear the local map after
   * migration, merges no keys: the local map keeps every record.
   */
  lemma AssignEmptyKeepsLocal(local: map<TaskId, Task>)
    ensures Assign(local, map[]) == local
    ensures local != map[] ==> Assign(local, map[]) != map[]
  {
    assert Assign(local, map[]).Keys == local.Keys;
  }

  /** Once the local map is empty, a later migration (for another client) has nothing to move. */
  lemma MigrationOfEmpty(user: UserId, uuids: map<TaskId, TaskId>)
    requires FreshUuids(map[], uuids)
    ensures Migrated(map[], user, uuids) == map[]
  {
    assert uuids.Keys == {};
    assert KeptPart(map[], user, {}).Keys == {};
  }

  /** The store's module-level state. */
  class Store {
    var local: map<TaskId, Task>
    var remote: Option<map<TaskId, Task>>
    var activeIsRemote: bool
    var currentClient: Option<ClientId>
    var currentUserId: Option<UserId>
    var hasLoggedError: bool
    /** How many sync errors have been logged in this store's lifetime. */
    ghost var errorLogs: nat

    ghost predicate Valid()
      reads this
    {
      && (activeIsRemote ==> remote.Some?)
      && (remote.Some? <==> currentClient.Some?)
      && (remote.Some? ==> currentUserId.Some?)
      && WellKeyed(local)
      && (remote.Some? ==> WellKeyed(remote.value))
      && errorLogs == (if hasLoggedError then 1 else 0)
    }

    /** `getStore()`: the map the pointer selects. */
    function ActiveTasks(): map<TaskId, Task>
      reads this
      requires activeIsRemote ==> remote.Some?
    {
      if activeIsRemote then remote.value else local
    }

    constructor ()
      ensures Valid()
      ensures local == map[] && remote == None && !activeIsRemote
      ensures currentClient == None && currentUserId == None && !hasLoggedError
      ensures !IsTaskSyncEnabled()
    {
      local := map[];
      remote := None;
      activeIsRemote := false;
      currentClient := None;
      currentUserId := None;
      hasLoggedError := false;
      errorLogs := 0;
    }

    /** `isTaskSyncEnabled`: whether the pointer selects the remote map. */
    function IsTaskSyncEnabled(): (enabled: bool)
      reads this
      requires Valid()
      ensures enabled <==> activeIsRemote
      ensures enabled ==> ActiveTasks() == remote.value
      ensures !enabled ==> ActiveTasks() == local
    {
      activeIsRemote && remote.Some?
    }

    /**
     * `enableTaskSync(client, userId)`. `uuids` supplies the uuid of each
     * local orphan. A falsy client changes nothing. Otherwise the user id is
     * recorded, and when there is no remote map yet or the client differs
     * from the last one a new remote map is built, every local record is
     * moved into it and the local map is emptied; a repeat call with the
     * same client (whatever the user id) leaves both maps alone. The remote
     * map then becomes active.
     */
    method EnableTaskSync(client: Option<ClientId>, userId: UserId, uuids: map<TaskId, TaskId>)
      requires Valid() && FreshUuids(local, uuids)
      modifies this`local, this`remote, this`activeIsRemote, this`currentClient, this`currentUserId
      ensures Valid()
      ensures client.None? ==>
        && local == old(local) && remote == old(remote) && activeIsRemote == old(activeIsRemote)
        && currentClient == old(currentClient) && currentUserId == old(currentUserId)
      ensures client.Some? ==>
        currentUserId == Some(userId) && currentClient == client && activeIsRemote && IsTaskSyncEnabled()
      ensures client.Some? && (old(remote).None? || old(currentClient) != client) ==>
        remote == Some(Migrated(old(local), userId, uuids)) && local == map[]
      ensures client.Some? && old(remote).Some? && old(currentClient) == client ==>
        remote == old(remote) && local == old(local)
    {
      if client.None? {
        return;
      }
      currentUserId := Some(userId);
      if remote.None? || currentClient != client {
        currentClient := client;
        assert WellKeyed(Migrated(local, userId, uuids)) by {
          MigratedContents(local, userId, uuids);
        }
        var migrated := MigrateTasks(local, userId, uuids);
        remote := Some(migrated);
        local := map[];
      }
      activeIsRemote := true;
    }

    /**
     * `syncTasksNow`: when the remote map is active it is written back with
     * its own contents to nudge the sync; the contents never change.
     */
    method SyncTasksNow() returns (touched: bool)
      requires Valid()
      modifies this`remote
      ensures Valid()
      ensures touched <==> IsTaskSyncEnabled()
      ensures remote == old(remote)
    {
      touched := activeIsRemote && remote.Some?;
      if touched {
        remote := Some(remote.value);
      }
    }

    /** `disableTaskSync`: select the local map; nothing else changes. */
    method DisableTaskSync()
      requires Valid()
      modifies this`activeIsRemote
      ensures Valid()
      ensures !IsTaskSyncEnabled() && ActiveTasks() == local
    {
      activeIsRemote := false;
    }

    /**
     * `addTask(taskText)` with `id` the uuid it draws: the active map gains
     * exactly the new record, owned by the current user id (which a
     * `disableTaskSync` does not reset); the other map is untouched.
     */
    method AddTask(taskText: string, id: TaskId)
      requires Valid() && id != "" && id !in ActiveTasks()
      modifies this`local, this`remote
      ensures Valid()
      ensures ActiveTasks() == old(ActiveTasks())[id := NewTask(id, taskText, currentUserId)]
      ensures activeIsRemote ==> local == old(local)
      ensures !activeIsRemote ==> remote == old(remote)
      ensures |ListedKeys(ActiveTasks())| == |ListedKeys(old(ActiveTasks()))| + 1
    {
      var t := NewTask(id, taskText, currentUserId);
      AddListsOneMore(ActiveTasks(), id, taskText, currentUserId);
      if activeIsRemote {
        remote := Some(remote.value[id := t]);
      } else {
        local := local[id := t];
      }
    }

    /** `toggleDone(id)` on the active map; the other map is untouched. */
    method ToggleDone(id: TaskId)
      requires Valid()
      modifies this`local, this`remote
      ensures Valid()
      ensures ActiveTasks() == Toggled(old(ActiveTasks()), id)
      ensures activeIsRemote ==> local == old(local)
      ensures !activeIsRemote ==> remote == old(remote)
    {
      ToggleEffect(ActiveTasks(), id);
      if activeIsRemote {
        remote := Some(Toggled(remote.value, id));
      } else {
        local := Toggled(local, id);
      }
    }

    /**
     * `getTasksArray`: the active map's listed records, each exactly once,
     * in the order the map is walked.
     */
    method GetTasksArray() returns (tasks: seq<Task>)
      requires Valid()
      ensures forall t :: t in tasks <==> t in ActiveTasks().Values && Listed(t)
      ensures forall i, j :: 0 <= i < j < |tasks| ==> tasks[i] != tasks[j]
    {
      var m := ActiveTasks();
      var pending := m.Keys;
      tasks := [];
      while pending != {}
        invariant pending <= m.Keys
        invariant forall i :: 0 <= i < |tasks| ==>
          Listed(tasks[i]) && tasks[i].id.value in m && tasks[i].id.value !in pending && m[tasks[i].id.value] == tasks[i]
        invariant forall k :: k in m && k !in pending && Listed(m[k]) ==> m[k] in tasks
        invariant forall i, j :: 0 <= i < j < |tasks| ==> tasks[i] != tasks[j]
        decreases |pending|
      {
        var k :| k in pending;
        if Listed(m[k]) {
          tasks := tasks + [m[k]];
        }
        pending := pending - {k};
      }
      forall t | t in m.Values && Listed(t) ensures t in tasks {
        var k :| k in m && m[k] == t;
      }
    }

    /**
     * The sync error handler shared by every remote map: it logs the first
     * error of the store's lifetime and swallows the rest.
     */
    method OnSyncError() returns (logged: bool)
      requires Valid()
      modifies this`hasLoggedError, this`errorLogs
      ensures Valid()
      ensures logged <==> !old(hasLoggedError)
      ensures hasLoggedError && errorLogs == 1
    {
      logged := !hasLoggedError;
      if logged {
        errorLogs := errorLogs + 1;
        hasLoggedError := true;
      }
    }
  }
}
