/**
  The small helpers of `src/utils.js` beside the schema walker: event sources
  and their labels, file storage provider labels, project configuration
  lookup and update, and the fallback connection string.

  JavaScript's falsy `undefined`, `null` and `""` are all the empty string
  here; a missing value the helpers return is `None`.
*/
module Utils {
  import opened Options

  // ---------------------------------------------------------------------
  // getEventSourceFromType, getEventSourceLabelFromType
  // ---------------------------------------------------------------------

  /** The event types that come from the database. */
  predicate IsDbEvent(eventType: string) {
    eventType == "DB_INSERT" || eventType == "DB_UPDATE" || eventType == "DB_DELETE"
  }

  /** The source of an event type, as `getEventSourceFromType` computes it. */
  function EventSource(eventType: string, defaultValue: Option<string>): Option<string> {
    if eventType == "" then defaultValue
    else if IsDbEvent(eventType) then Some("database")
    else Some("custom")
  }

  /** `getEventSourceFromType`: start from the default and overwrite it in a
      switch whose three database cases fall through to one assignment. */
  method GetEventSourceFromType(eventType: string, defaultValue: Option<string>) returns (source: Option<string>)
    ensures eventType == "" ==> source == defaultValue
    ensures eventType != "" ==> (source == Some("database") <==> IsDbEvent(eventType))
    ensures eventType != "" ==> source == Some("database") || source == Some("custom")
    ensures source == EventSource(eventType, defaultValue)
  {
    source := defaultValue;
    if eventType != "" {
      if eventType == "DB_INSERT" || eventType == "DB_UPDATE" || eventType == "DB_DELETE" {
        source := Some("database");
      } else {
        source := Some("custom");
      }
    }
  }

  /** `toUpperCase` on one character, for the ASCII letters. */
  function UpperChar(c: char): char {
    if 'a' <= c <= 'z' then (c as int - 32) as char else c
  }

  /** `toLowerCase` on one character, for the ASCII letters. */
  function LowerChar(c: char): char {
    if 'A' <= c <= 'Z' then (c as int + 32) as char else c
  }

  /** `s.charAt(0).toUpperCase() + s.slice(1)`. */
  function Capitalize(s: string): (r: string)
    ensures |r| == |s|
    ensures |s| > 0 ==> r[0] == UpperChar(s[0]) && r[1..] == s[1..]
  {
    if s == "" then "" else [UpperChar(s[0])] + s[1..]
  }

  /** The first character lower-cased, the inverse of `Capitalize` on lower-case words. */
  function Decapitalize(s: string): (r: string)
    ensures |r| == |s|
    ensures |s| > 0 ==> r[0] == LowerChar(s[0]) && r[1..] == s[1..]
  {
    if s == "" then "" else [LowerChar(s[0])] + s[1..]
  }

  /** `getEventSourceLabelFromType`: the source with its first letter
      upper-cased. It passes no default, so a falsy type leaves the source
      undefined and `charAt` throws: `None`. */
  function EventSourceLabel(eventType: string): (r: Option<string>)
    ensures eventType == "" ==> r == None
    ensures eventType != "" ==> (r == Some("Database") <==> IsDbEvent(eventType))
    ensures eventType != "" ==> r == Some("Database") || r == Some("Custom")
  {
    assert Capitalize("database") == "Database";
    assert Capitalize("custom") == "Custom";
    match EventSource(eventType, None)
    case None => None
    case Some(source) => Some(Capitalize(source))
  }

  /** Only the first letter changes: lower-casing it again gives back the source. */
  lemma {:induction false} LabelNamesSource(eventType: string)
    requires eventType != ""
    ensures EventSourceLabel(eventType).Some? && EventSource(eventType, None).Some?
    ensures Decapitalize(EventSourceLabel(eventType).value) == EventSource(eventType, None).value
  {
  }

  // ---------------------------------------------------------------------
  // getFileStorageProviderLabelFromStoreType
  // ---------------------------------------------------------------------

  /** The store types the console knows. */
  predicate IsKnownStoreType(storeType: string) {
    storeType == "local" || storeType == "amazon-s3" || storeType == "gcp-storage"
  }

  /** `getFileStorageProviderLabelFromStoreType`. */
  function FileStorageProviderLabel(storeType: string): (r: string)
    ensures r != "" <==> IsKnownStoreType(storeType)
    ensures storeType == "local" ==> r == "Local Storage"
    ensures storeType == "amazon-s3" ==> r == "Amazon S3"
    ensures storeType == "gcp-storage" ==> r == "GCP Storage"
  {
    match storeType
    case "local" => "Local Storage"
    case "amazon-s3" => "Amazon S3"
    case "gcp-storage" => "GCP Storage"
    case _ => ""
  }

  /** Distinct known store types get distinct labels, so a label names its store type. */
  lemma ProviderLabelsDistinct(a: string, b: string)
    requires IsKnownStoreType(a) && IsKnownStoreType(b) && a != b
    ensures FileStorageProviderLabel(a) != FileStorageProviderLabel(b)
  {
  }

  // ---------------------------------------------------------------------
  // getProjectConfig, setProjectConfig
  // ---------------------------------------------------------------------

  /** A project: an object whose properties are read and written by path.
      Its id is the property `id`, which a path may address like any other. */
  type Project<V> = map<string, V>

  /** `project.id === projectId`; a project without an id matches no id. */
  predicate IdIs<V(==)>(project: Project<V>, projectId: V) {
    "id" in project && project["id"] == projectId
  }

  /** `get(project, path, defaultValue)`: the value at the path, or the default when it is undefined. */
  function Get<V>(project: Project<V>, path: string, defaultValue: V): V {
    if path in project then project[path] else defaultValue
  }

  /** Some project has the id. */
  predicate HasProject<V(==)>(projects: seq<Project<V>>, projectId: V) {
    projects != [] && (IdIs(projects[0], projectId) || HasProject(projects[1..], projectId))
  }

  /** The position of the first project with the id (what `Array.prototype.find` returns). */
  function FirstIndex<V(==)>(projects: seq<Project<V>>, projectId: V): (k: nat)
    requires HasProject(projects, projectId)
    ensures k < |projects| && IdIs(projects[k], projectId)
    ensures forall j :: 0 <= j < k ==> !IdIs(projects[j], projectId)
  {
    if IdIs(projects[0], projectId) then 0 else 1 + FirstIndex(projects[1..], projectId)
  }

  /** A project with the id exists exactly when some position holds one. */
  lemma {:induction false} HasProjectMeaning<V>(projects: seq<Project<V>>, projectId: V)
    ensures HasProject(projects, projectId) <==> exists k :: 0 <= k < |projects| && IdIs(projects[k], projectId)
  {
    if projects != [] {
      HasProjectMeaning(projects[1..], projectId);
      if exists k :: 0 <= k < |projects| && IdIs(projects[k], projectId) {
        var k :| 0 <= k < |projects| && IdIs(projects[k], projectId);
        if k > 0 {
          assert projects[1..][k - 1] == projects[k];
        }
      }
    }
  }

  /** `getProjectConfig`: the value at `path` of the FIRST project whose id
      matches, or the default when no project has that id. */
  function GetProjectConfig<V(==)>(projects: seq<Project<V>>, projectId: V, path: string, defaultValue: V): (r: V)
    ensures !HasProject(projects, projectId) ==> r == defaultValue
    ensures HasProject(projects, projectId) ==> r == Get(projects[FirstIndex(projects, projectId)], path, defaultValue)
  {
    if projects == [] then defaultValue
    else if IdIs(projects[0], projectId) then Get(projects[0], path, defaultValue)
    else GetProjectConfig(projects[1..], projectId, path, defaultValue)
  }

  /** Reading the path `id` of a project found by its id gives that id back. */
  lemma ReadOwnId<V>(projects: seq<Project<V>>, projectId: V, defaultValue: V)
    requires HasProject(projects, projectId)
    ensures GetProjectConfig(projects, projectId, "id", defaultValue) == projectId
  {
  }

  /** The list update of `setProjectConfig`: every project with the id gets
      `value` at `path`; the other projects, the order and the length stay. */
  function SetProjectConfig<V(==)>(projects: seq<Project<V>>, projectId: V, path: string, value: V): (r: seq<Project<V>>)
    ensures |r| == |projects|
    ensures forall k :: 0 <= k < |projects| && !IdIs(projects[k], projectId) ==> r[k] == projects[k]
    ensures forall k :: 0 <= k < |projects| && IdIs(projects[k], projectId) ==> r[k] == projects[k][path := value]
  {
    if projects == [] then []
    else
      var p := projects[0];
      [if IdIs(p, projectId) then p[path := value] else p]
      + SetProjectConfig(projects[1..], projectId, path, value)
  }

  /** A write to any path but `id` keeps every project's id; a write to `id`
      renames exactly the projects that had the id. */
  lemma IdsAfterSet<V>(projects: seq<Project<V>>, projectId: V, path: string, value: V, k: nat, x: V)
    requires k < |projects|
    ensures IdIs(SetProjectConfig(projects, projectId, path, value)[k], x)
         <==> if IdIs(projects[k], projectId) && path == "id" then x == value else IdIs(projects[k], x)
  {
  }

  /** Reading after writing a path other than `id`: the written path of the
      written project reads back the value; every other (project, path)
      reads as before. */
  lemma {:induction false} GetAfterSet<V>(projects: seq<Project<V>>, projectId: V, path: string, value: V,
                                              otherId: V, otherPath: string, defaultValue: V)
    requires path != "id"
    ensures GetProjectConfig(SetProjectConfig(projects, projectId, path, value), otherId, otherPath, defaultValue)
         == if otherId == projectId && otherPath == path && HasProject(projects, projectId) then value
            else GetProjectConfig(projects, otherId, otherPath, defaultValue)
  {
    if projects != [] {
      var updated := SetProjectConfig(projects, projectId, path, value);
      var first := projects[0];
      assert updated[0] == if IdIs(first, projectId) then first[path := value] else first;
      assert updated[1..] == SetProjectConfig(projects[1..], projectId, path, value);
      GetAfterSet(projects[1..], projectId, path, value, otherId, otherPath, defaultValue);
    }
  }

  /** Writing the path `id` renames the projects that had the id: afterwards a
      project has the new id exactly when one had the old or the new id before;
      the old id is no longer found (unless it is the new one), so reads under
      it give the default; reads under any third id are as before. */
  lemma {:induction false} RenameAfterSet<V>(projects: seq<Project<V>>, projectId: V, value: V,
                                                 otherId: V, otherPath: string, defaultValue: V)
    ensures var updated := SetProjectConfig(projects, projectId, "id", value);
      && (HasProject(updated, value) <==> HasProject(projects, projectId) || HasProject(projects, value))
      && (projectId != value ==> !HasProject(updated, projectId)
                                 && GetProjectConfig(updated, projectId, otherPath, defaultValue) == defaultValue)
      && (otherId != projectId && otherId != value ==>
            GetProjectConfig(updated, otherId, otherPath, defaultValue) == GetProjectConfig(projects, otherId, otherPath, defaultValue))
  {
    if projects != [] {
      var updated := SetProjectConfig(projects, projectId, "id", value);
      var first := projects[0];
      assert updated[0] == if IdIs(first, projectId) then first["id" := value] else first;
      assert updated[1..] == SetProjectConfig(projects[1..], projectId, "id", value);
      RenameAfterSet(projects[1..], projectId, value, otherId, otherPath, defaultValue);
    }
  }

  // ---------------------------------------------------------------------
  // getConnString
  // ---------------------------------------------------------------------

  /** `getConnString`: the default connection string of the database type,
      or "localhost" when there is none (or it is empty). */
  function GetConnString(defaultConnStrings: map<string, string>, dbType: string): (r: string)
    ensures r != ""
    ensures dbType in defaultConnStrings && defaultConnStrings[dbType] != "" ==> r == defaultConnStrings[dbType]
    ensures !(dbType in defaultConnStrings && defaultConnStrings[dbType] != "") ==> r == "localhost"
  {
    var connString := if dbType in defaultConnStrings then defaultConnStrings[dbType] else "";
    if connString != "" then connString else "localhost"
  }
}
