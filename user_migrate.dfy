/**
 * The one-off migration of user_migrate.py: each stored user record is rewritten
 * to the compact form with the keys "t" (first seen), "u" (username) and "n"
 * (first name), and the loop over all users counts how many records changed.
 */
module UserMigrate {
  import opened Wrappers

  /** A JSON value as `json.load` produces it. */
  datatype Value =
    | Null
    | Bool(b: bool)
    | Int(i: int)
    | Float(x: real)
    | Str(s: string)
    | Array(items: seq<Value>)
    | Object(fields: map<string, Value>)

  /** Python's truth value of a JSON value: false, zero, empty and None are falsy. */
  predicate Truthy(v: Value) {
    match v
    case Null => false
    case Bool(b) => b
    case Int(i) => i != 0
    case Float(x) => x != 0.0
    case Str(s) => |s| > 0
    case Array(items) => |items| > 0
    case Object(fields) => |fields| > 0
  }

  /** One user record, a JSON object. */
  type Record = map<string, Value>

  /** The keys of the compact format. */
  const CompactKeys: set<string> := {"t", "u", "n"}

  /** What `migrate_record` returns: the new record and whether anything changed. */
  datatype Migration = Migration(record: Record, changed: bool)

  /** A verbose field worth keeping: `rec.get(key)` is truthy and not the string "N/A". */
  predicate Worth(rec: Record, verbose: string) {
    verbose in rec && Truthy(rec[verbose]) && rec[verbose] != Str("N/A")
  }

  /** Whether the record still carries one of the verbose keys of the old format. */
  predicate HasVerboseKey(rec: Record) {
    "username" in rec || "first_name" in rec || "user_id" in rec
  }

  /**
   * The value a compact key gets: the one already there, else the verbose field
   * when it is worth keeping, else nothing.
   */
  function CompactField(rec: Record, key: string, verbose: string): (v: Option<Value>)
    ensures key in rec ==> v == Some(rec[key])
    ensures key !in rec ==> (v.Some? <==> Worth(rec, verbose))
    ensures key !in rec && v.Some? ==> v.value == rec[verbose]
  {
    if key in rec then Some(rec[key])
    else if Worth(rec, verbose) then Some(rec[verbose])
    else None
  }

  /**
   * `migrate_record`. The new record always has "t": the old one, or 0 for a
   * record from before the timestamps. "u" and "n" keep their old values, or are
   * filled from "username" and "first_name" when those are truthy and not "N/A".
   * No other key survives. The record counts as changed exactly when it lacked
   * "t" or still had a verbose key.
   */
  function MigrateRecord(uid: string, rec: Record): (r: Migration)
    ensures r.record.Keys <= CompactKeys
    ensures "t" in r.record && r.record["t"] == if "t" in rec then rec["t"] else Int(0)
    ensures "u" in r.record <==> "u" in rec || Worth(rec, "username")
    ensures "u" in r.record ==> r.record["u"] == if "u" in rec then rec["u"] else rec["username"]
    ensures "n" in r.record <==> "n" in rec || Worth(rec, "first_name")
    ensures "n" in r.record ==> r.record["n"] == if "n" in rec then rec["n"] else rec["first_name"]
    ensures r.changed <==> "t" !in rec || HasVerboseKey(rec)
  {
    var t := if "t" in rec then rec["t"] else Int(0);
    var u := CompactField(rec, "u", "username");
    var n := CompactField(rec, "n", "first_name");
    var changed :=
      || "t" !in rec
      || ("u" !in rec && u.Some?)
      || ("n" !in rec && n.Some?)
      || HasVerboseKey(rec);
    var withT := map["t" := t];
    var withU := if u.Some? then withT["u" := u.value] else withT;
    Migration(if n.Some? then withU["n" := n.value] else withU, changed)
  }

  /**
   * A record reported as unchanged is not always returned as it was: keys
   * outside the compact format are dropped silently.
   */
  lemma UnchangedKeepsCompactPart(uid: string, rec: Record)
    ensures var r := MigrateRecord(uid, rec);
      !r.changed ==> r.record == map k | k in rec && k in CompactKeys :: rec[k]
  {
    var r := MigrateRecord(uid, rec);
    if !r.changed {
      var kept := map k | k in rec && k in CompactKeys :: rec[k];
      assert r.record.Keys == kept.Keys;
    }
  }

  /** An already compact record comes back as it was, reported as unchanged. */
  lemma CompactRecordUntouched(uid: string, rec: Record)
    requires "t" in rec && rec.Keys <= CompactKeys
    ensures MigrateRecord(uid, rec) == Migration(rec, false)
  {
    var r := MigrateRecord(uid, rec);
    assert r.record.Keys == rec.Keys;
  }

  /** "Safe to re-run": migrating a migrated record changes nothing. */
  lemma MigrateIdempotent(uid: string, rec: Record)
    ensures var r := MigrateRecord(uid, rec);
      MigrateRecord(uid, r.record) == Migration(r.record, false)
  {
    CompactRecordUntouched(uid, MigrateRecord(uid, rec).record);
  }

  /** The users whose records the migration changes. */
  function ChangedUsers(users: map<string, Record>): (ids: set<string>)
    ensures forall uid :: uid in ids <==> uid in users && ("t" !in users[uid] || HasVerboseKey(users[uid]))
  {
    set uid | uid in users && MigrateRecord(uid, users[uid]).changed
  }

  /** `new_users` after the loop: every user's record migrated. */
  function MigratedUsers(users: map<string, Record>): (m: map<string, Record>)
    ensures m.Keys == users.Keys
    ensures forall uid :: uid in m ==> "t" in m[uid] && m[uid].Keys <= CompactKeys
  {
    map uid | uid in users :: MigrateRecord(uid, users[uid]).record
  }

  /** A second run over the migrated users changes nothing and migrates nobody. */
  lemma RerunChangesNothing(users: map<string, Record>)
    ensures MigratedUsers(MigratedUsers(users)) == MigratedUsers(users)
    ensures ChangedUsers(MigratedUsers(users)) == {}
  {
    var once := MigratedUsers(users);
    forall uid | uid in once
      ensures MigrateRecord(uid, once[uid]) == Migration(once[uid], false)
    {
      MigrateIdempotent(uid, users[uid]);
    }
  }

  /** `soFar` holds the migrated records of some of the users. */
  ghost predicate MigratedSoFar(users: map<string, Record>, soFar: map<string, Record>) {
    && soFar.Keys <= users.Keys
    && forall uid :: uid in soFar ==> soFar[uid] == MigrateRecord(uid, users[uid]).record
  }

  /** `changedIds` are those of the `visited` users whose records the migration changes. */
  ghost predicate ChangedSoFar(users: map<string, Record>, visited: set<string>, changedIds: set<string>) {
    && visited <= users.Keys
    && changedIds <= visited
    && forall uid :: uid in visited ==> (uid in changedIds <==> MigrateRecord(uid, users[uid]).changed)
  }

  /** Adding one more user's migrated record keeps `MigratedSoFar` and grows the map by one. */
  lemma MigratedSoFarStep(users: map<string, Record>, soFar: map<string, Record>, uid: string)
    requires MigratedSoFar(users, soFar) && uid in users && uid !in soFar
    ensures MigratedSoFar(users, soFar[uid := MigrateRecord(uid, users[uid]).record])
    ensures |soFar[uid := MigrateRecord(uid, users[uid]).record]| == |soFar| + 1
  {
  }

  /** Visiting one more user keeps `ChangedSoFar`, adding the user when its record changes. */
  lemma ChangedSoFarStep(users: map<string, Record>, visited: set<string>, changedIds: set<string>, uid: string)
    requires ChangedSoFar(users, visited, changedIds) && uid in users && uid !in visited
    ensures var changed := MigrateRecord(uid, users[uid]).changed;
      ChangedSoFar(users, visited + {uid}, if changed then changedIds + {uid} else changedIds)
    ensures MigrateRecord(uid, users[uid]).changed ==> |changedIds + {uid}| == |changedIds| + 1
  {
  }

  /** Once every user is visited, the loop has built `MigratedUsers` and found `ChangedUsers`. */
  lemma LoopDone(users: map<string, Record>, newUsers: map<string, Record>, changedIds: set<string>)
    requires MigratedSoFar(users, newUsers) && newUsers.Keys == users.Keys
    requires ChangedSoFar(users, newUsers.Keys, changedIds)
    ensures newUsers == MigratedUsers(users)
    ensures changedIds == ChangedUsers(users)
  {
  }

  /**
   * The record loop of `main`: it migrates every user, counts the changed
   * records in `migrated` and the others in `alreadyOk`, and the two counts add
   * up to the number of users.
   */
  method MigrateUsers(users: map<string, Record>) returns (newUsers: map<string, Record>, migrated: nat, alreadyOk: nat)
    ensures newUsers == MigratedUsers(users)
    ensures migrated == |ChangedUsers(users)|
    ensures alreadyOk == |users| - migrated
  {
    newUsers := map[];
    migrated, alreadyOk := 0, 0;
    var remaining := users.Keys;
    ghost var changedIds: set<string> := {};
    while remaining != {}
      invariant remaining <= users.Keys
      invariant forall uid :: uid in users ==> (uid in remaining <==> uid !in newUsers)
      invariant MigratedSoFar(users, newUsers)
      invariant ChangedSoFar(users, newUsers.Keys, changedIds)
      invariant migrated == |changedIds| && migrated + alreadyOk == |newUsers|
      decreases remaining
    {
      var uid :| uid in remaining;
      var m := MigrateRecord(uid, users[uid]);
      MigratedSoFarStep(users, newUsers, uid);
      ChangedSoFarStep(users, newUsers.Keys, changedIds, uid);
      assert newUsers[uid := m.record].Keys == newUsers.Keys + {uid};
      newUsers := newUsers[uid := m.record];
      if m.changed {
        changedIds := changedIds + {uid};
        migrated := migrated + 1;
      } else {
        alreadyOk := alreadyOk + 1;
      }
      remaining := remaining - {uid};
    }
    assert newUsers.Keys == users.Keys;
    LoopDone(users, newUsers, changedIds);
  }
}
