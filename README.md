# Space Cloud console: schema walker, console helpers and database overview

This project models part of the Space Cloud web console and proves properties about it.

It covers three parts:

- **The schema relation walker of `src/utils.js`.** `getFields` builds the outline of a GraphQL type. `getFieldsValues` and `getVariables` build the key/type pairs used to write example queries. All three walk the first definition of a schema. A field whose first directive is `@link` is expanded into every type definition in the index whose name is the field's base type.
- **The small helpers of `src/utils.js`:**
  - event sources and their labels;
  - file storage provider labels;
  - project configuration lookup and update;
  - the fallback connection string.
- **The bookkeeping of the database overview page (`DBOverview.jsx`):**
  - the tracked and untracked tables;
  - whether the database still needs setting up;
  - the `Collection`/`Table` label;
  - the way `handleTrackTables` merges new collection entries into the database configuration.

Files:

- `options.dfy`: `Option`, with `None` for JavaScript's `undefined`.
- `schema_walker.dfy`: module `SchemaWalker`.
- `utils.dfy`: module `Utils`.
- `db_overview.dfy`: module `DbOverview`.

## How the walker is modelled

Each walker is modelled twice:

- as a specification function over the fields: `Outline` for `getFields`, and `Pairs` for both pair builders, which differ only in whether the key is quoted;
- as an imperative method with the source's loops: `GetFields`, `RenderPairs` and `RelinkField`.

Each method is proved equal to its function. The properties are then proved as lemmas about the functions.

Two things the JavaScript does implicitly are made explicit.

- **Missing rules.** `gql(rules[key])` throws when an index key has no rule. The model returns `Err(UnknownRule(key))` at exactly that point, which is only while a link field scans the index.
- **Termination.** Nothing in the source stops a type that links to itself. The model carries a `depth` bound that each link expansion spends. A walk that runs out returns `Err(TooDeep)`. For a type that links to itself, the source overflows its stack at that point (`SelfLinkNeverCompletes`). A walk that fails under a small bound may complete under a larger one. `OutlineLarger` and `PairsLarger` prove that a larger bound never changes a walk that has completed.

The pair builders behave as written when a link field has two or more matching index entries:

- each match pops the last fragment, pushes the `"name": ` prefix and then pushes the braced block;
- so m matches leave m copies of the prefix and only the last block (`RelinkLastTargetWins`, `DuplicateTarget`);
- the outline, by contrast, expands every match between the one pair of braces, so a type matched twice appears twice inside the same `{` `}`.

In the pairs, the braced block is a single fragment, `"{" + children.join(",") + "}"`, because the JavaScript concatenates an array into a string (`PostAuthorPairs`).

## How the database overview is modelled

A collections object is modelled as its list of entries in property order. Assigning to an existing name keeps its place; a new name is appended (`Put`). This means the order of the tracked rows (`TrackedAppend`, `TrackedSingle`) and the order of the entries after tracking (`MergedNames`) are both part of the contracts.

## Model

| member | source | states |
|---|---|---|
| SchemaWalker.GetType | src/utils.js:198-200 | `getType` is the name of the schema's first definition |
| SchemaWalker.ExpandOneKey | src/utils.js:210-212 | `getType` decides the expansion: a resolved key contributes nothing unless its definition's name is the link field's base type, and then it contributes that definition's outline |
| SchemaWalker.GetFields | src/utils.js:202-219 | The loop builds exactly `Outline` of the schema's fields: each field's name line; for a link field also "{", the outlines of all matching index entries in index order, and "}"; it fails on the first missing rule |
| SchemaWalker.Relink | src/utils.js:227-235 | Scanning the index for a link field: a successful scan saw only keys with rules; it leaves one fragment more than the number of matches; all fragments but the last are the `"name": ` prefix; with no match it leaves the scalar pair alone |
| SchemaWalker.RenderPairs | src/utils.js:221-237 | The shared loop of the pair builders builds exactly `Pairs`: the scalar pair of every field, reworked by the index scan for link fields |
| SchemaWalker.RelinkField | src/utils.js:227-235 | The inner loop (pop, push the prefix, concat the braced recursive pairs) leaves the earlier fragments followed by `Relink` over the whole index |
| SchemaWalker.GetFieldsValues | src/utils.js:221-237 | `getFieldsValues` is `Pairs` with quoted keys |
| SchemaWalker.GetVariables | src/utils.js:239-256 | `getVariables` is `Pairs` with bare keys |
| SchemaWalker.ThenAssoc | src/utils.js:204-218 | Sequencing the pieces of a walk is associative: grouping changes neither the first error nor the output |
| SchemaWalker.LinkFreeOutline | src/utils.js:204-208 | With no link field, the outline is exactly one name line per field, in order |
| SchemaWalker.LinkFreePairs | src/utils.js:223-227 | With no link field, the pairs are exactly one scalar pair per field, in order |
| SchemaWalker.OutlineAppend | src/utils.js:204-218 | The outline of `a + b` is the outline of `a` followed by that of `b`, so a field's contribution does not depend on its neighbours |
| SchemaWalker.PairsAppend | src/utils.js:223-236 | The same for the pairs |
| SchemaWalker.ExpandAppend | src/utils.js:210-213 | The expansion over `a + b` is that over `a` followed by that over `b`: every matching entry contributes, with no deduplication |
| SchemaWalker.OneField | src/utils.js:204-218 | The walk of a single field is exactly what that field contributes |
| SchemaWalker.ExpandNoTarget | src/utils.js:210-213 | With no matching resolved key, nothing sits between the braces |
| SchemaWalker.RelinkNoTarget | src/utils.js:228-233 | With no matching resolved key, the scalar pair stays |
| SchemaWalker.UnmatchedLink | src/utils.js:206-216 | An unmatched link field outlines as its name, "{" and "}", and pairs like a plain field |
| SchemaWalker.FirstDirectiveOnly | src/utils.js:206-208 | Only the first directive counts: a field whose first directive is not `link` is rendered as a plain field |
| SchemaWalker.RelinkSingleTarget | src/utils.js:229-233 | Exactly one matching entry replaces the scalar pair with the prefix and one braced block holding the target type's pairs |
| SchemaWalker.RelinkLastTargetWins | src/utils.js:229-233 | With several matches, the surviving block is the last match's |
| SchemaWalker.DuplicateTarget | src/utils.js:210-233 | A key listed twice puts the target's outline twice between the one pair of braces, but leaves two prefixes and one block in the pairs |
| SchemaWalker.OutlineDeeper | src/utils.js:211-212 | A completed outline is unchanged when the depth bound grows by one |
| SchemaWalker.ExpandDeeper | src/utils.js:210-213 | A completed expansion is unchanged when the depth bound grows by one |
| SchemaWalker.PairsDeeper | src/utils.js:229-233 | Completed pairs are unchanged when the depth bound grows by one |
| SchemaWalker.RelinkDeeper | src/utils.js:229-233 | A completed index scan is unchanged when the depth bound grows by one |
| SchemaWalker.OutlineLarger | src/utils.js:211-212 | A completed outline is unchanged under any larger depth bound |
| SchemaWalker.PairsLarger | src/utils.js:229-233 | Completed pairs are unchanged under any larger depth bound |
| SchemaWalker.OutlinePairsAgree | src/utils.js:202-237 | The outline and the pairs fail on exactly the same inputs, with the same error |
| SchemaWalker.ExpandRelinkAgree | src/utils.js:210-233 | The expansion and the index scan of one link field fail on the same inputs, with the same error |
| SchemaWalker.OnlyTooDeep | src/utils.js:202-219 | When every index key has a rule, the outline can fail only by running out of depth |
| SchemaWalker.ExpandOnlyTooDeep | src/utils.js:210-213 | The same for the expansion of one link field |
| SchemaWalker.SelfLinkNeverCompletes | src/utils.js:210-212 | A type with a link field to itself never completes, for any depth bound |
| SchemaWalker.PostAuthorOutline | src/utils.js:202-219 | Worked example: the outline of a post whose linked author has an `id` is `author`, `{`, `id`, `}`, `title` |
| SchemaWalker.PostAuthorPairs | src/utils.js:221-237 | Worked example: the pairs of the same post are the author prefix, ONE braced block with the `id` pair, and the title pair |
| Utils.GetEventSourceFromType | src/utils.js:101-115 | An empty type gives the default; otherwise the source is "database" exactly for the three DB event types, else "custom" |
| Utils.Capitalize | src/utils.js:119 | The first character is upper-cased; the length and the rest are unchanged |
| Utils.EventSourceLabel | src/utils.js:117-120 | An empty type has no label (the source throws); otherwise the label is "Database" exactly for the DB event types, else "Custom" |
| Utils.LabelNamesSource | src/utils.js:117-120 | The label determines its source: lower-casing the label's first letter gives back the source it was derived from |
| Utils.FileStorageProviderLabel | src/utils.js:122-133 | Each of the three known store types has its label; the label is non-empty exactly for known store types |
| Utils.ProviderLabelsDistinct | src/utils.js:122-133 | Different known store types have different labels |
| Utils.FirstIndex | src/utils.js:38 | `find` picks the first project whose `id` property is the id: no earlier project has it |
| Utils.HasProjectMeaning | src/utils.js:38-39 | A project is found exactly when some position holds the id |
| Utils.GetProjectConfig | src/utils.js:37-41 | Reads the path from the first project with the id; gives the default when no project has that id |
| Utils.SetProjectConfig | src/utils.js:44-49 | Every project with the id gets the value at the path; the other projects, the order and the length stay |
| Utils.ReadOwnId | src/utils.js:37-41 | Reading the path `id` of a project found by its id gives the id back, since the id is an ordinary property |
| Utils.IdsAfterSet | src/utils.js:44-49 | A write to any path but `id` keeps every project's id; a write to `id` renames exactly the projects that had the id |
| Utils.RenameAfterSet | src/utils.js:37-49 | After writing the path `id`: a project has the new id exactly when one had the old or the new id before; the old id (if different) is no longer found and reads give the default; reads under any third id are as before |
| Utils.GetAfterSet | src/utils.js:37-49 | Reading after writing a path other than `id` (the `id` case is `RenameAfterSet`): the written path of an existing project reads back the value; every other (project, path) reads as before |
| Utils.GetConnString | src/utils.js:61-64 | The result is never empty: the database type's default connection string when it is set and non-empty, otherwise "localhost" |
| DbOverview.Lookup | src/pages/database/overview/DBOverview.jsx:197 | An entry is found exactly when its name is among the entry names |
| DbOverview.Put | src/pages/database/overview/DBOverview.jsx:237-241 | After the assignment the name holds the new value and every other name its old value; an existing name keeps its place, a new one is appended; names stay unique |
| DbOverview.TrackedTables | src/pages/database/overview/DBOverview.jsx:192-195 | The rows never show `default` or `events_log`, and each row names an existing entry |
| DbOverview.TrackedAppend | src/pages/database/overview/DBOverview.jsx:192-195 | The rows keep property order: the rows of `a + b` are those of `a` followed by those of `b` |
| DbOverview.TrackedSingle | src/pages/database/overview/DBOverview.jsx:192-195 | One entry gives exactly one row with its name and realtime flag, or none when it is `default` or `events_log` |
| DbOverview.RowShowsEntry | src/pages/database/overview/DBOverview.jsx:192-194 | With unique names, each row names an entry and shows that entry's realtime flag |
| DbOverview.EveryEntryHasRow | src/pages/database/overview/DBOverview.jsx:192-195 | Every entry other than `default` and `events_log` has a row showing its realtime flag |
| DbOverview.UntrackedTables | src/pages/database/overview/DBOverview.jsx:197 | A table is untracked exactly when it is listed and has no entry |
| DbOverview.UntrackedAppend | src/pages/database/overview/DBOverview.jsx:197 | The untracked tables keep the order of the list |
| DbOverview.SetUpDb | src/pages/database/overview/DBOverview.jsx:196 | Set-up is needed exactly when no listed table is `events_log` |
| DbOverview.Label | src/pages/database/overview/DBOverview.jsx:29 | The label is "Collection" exactly for MongoDB, and "Table" otherwise |
| DbOverview.DefaultRule | src/pages/database/overview/DBOverview.jsx:231-232 | The rules of the `default` entry, or the empty string when there is none |
| DbOverview.MongoSchemas | src/pages/database/overview/DBOverview.jsx:236 | Every table gets the template schema that names it, position by position |
| DbOverview.Merge | src/pages/database/overview/DBOverview.jsx:249-256 | The `forEach` over the tables leaves exactly `Merged`: each table in turn is assigned a realtime entry with the rule and its schema |
| DbOverview.HandleTrackTables | src/pages/database/overview/DBOverview.jsx:229-265 | MongoDB: merge with the template schemas. Otherwise: merge with the inspected schemas, or leave the collections unchanged when inspection failed. The rule is always the default entry's |
| DbOverview.MergedLookup | src/pages/database/overview/DBOverview.jsx:250-256 | After tracking, a tracked name holds realtime, the default rule and the schema of its last position in the list; every other entry is unchanged |
| DbOverview.MergedNames | src/pages/database/overview/DBOverview.jsx:234-242 | After tracking, the old names are in their places, followed by each newly tracked table once, in list order; names stay unique |
| DbOverview.NewNamesMembers | src/pages/database/overview/DBOverview.jsx:250-256 | The appended names are exactly the listed tables that had no entry |
| DbOverview.TrackedNotUntracked | src/pages/database/overview/DBOverview.jsx:197 | After tracking, none of the tracked tables is offered as untracked |
| DbOverview.UntrackedAfterTracking | src/pages/database/overview/DBOverview.jsx:197 | After tracking, a listed table is untracked exactly when it was untracked before and was not tracked |
| DbOverview.MongoTracking | src/pages/database/overview/DBOverview.jsx:233-242 | Every table tracked on MongoDB is a realtime collection with the default rule and the template schema naming it |
| DbOverview.SchemaByPosition | src/pages/database/overview/DBOverview.jsx:250-255 | When the tables are distinct, the table at position i gets `schemas[i]` |
| DbOverview.EventsLogRows | src/pages/database/overview/DBOverview.jsx:192-197 | `events_log` is never a tracked row; it is offered as untracked exactly when it is listed without an entry |

## Left out

- The GraphQL parser (`gql`): rules are given already parsed, as a map from key to type definition. Parse errors in a rule's text are not modelled; only a missing rule is.
- `SchemaWalker.Field`: the model assumes every field type has exactly one wrapper, and its `type.type.name.value` is the field's base type. For a bare named type or a doubly wrapped one (`[T]!`), `type.type.name` is undefined and the source throws a TypeError. That happens in the pair builders on every such field, and in `getFields` on a link field while it scans a non-empty index. These throws are not modelled.
- Unbounded recursion: the depth bound replaces the stack overflow of a self-linking type. No depth is proved to be enough for schemas whose links form no cycle.
- `parseDbConnString`, `generateId` (random), `generateProjectConfig`, `notify`, `openProject`, `handleConfigLogin` and `onAppLoad`: these are I/O, randomness, network or store dispatch around the modelled helpers.
- `setProjectConfig`: the store dispatch is left out; the model returns the updated list.
- `Utils.Get`: lodash `get` and `setObjectPath` take dotted paths. The model treats a path as one key of a flat map, with `id` as one of those keys.
- `Utils.GetProjectConfig`: `project.id === projectId` matches two undefined values. The model's ids are always defined values, and a project without an `id` property matches no id.
- `Utils.Capitalize`: `toUpperCase` is modelled for ASCII letters only.
- JavaScript orders integer-like property names (such as `"1"`) before all others, in numeric order. The model keeps plain insertion order everywhere: in `DbOverview.Put`, `DbOverview.MergedNames` and `DbOverview.TrackedTables`.
- `DbOverview.Collection`: `isRealtimeEnabled` is taken to be a boolean.
- `DbOverview.HandleTrackTables`: the `pendingRequests` counter, the error notification and the store dispatch are left out. The inspection result is a parameter.
- `DbOverview.UntrackedTables`: names inherited from `Object.prototype` are not modelled.
- The React rendering, `mapDispatchToProps` apart from `handleTrackTables`, and the login form are not part of this model.
