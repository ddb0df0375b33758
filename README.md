# WrappedError, modelled in Dafny

This project models `WrappedError`, a small JavaScript error-chain library. A
`WrappedError` node carries an error type record (`{ name, message }`,
compared by reference) and a data map. It may also carry a causal link: one
`originalError` or an ordered list `originalErrors`. The model covers:

- construction with type validation: a malformed type record makes the
  constructor throw an `INVALID_TYPE_DEFINITION` node;
- `is`, `match` and `valueConflict`;
- the wrap decision: `wrap` either merges into the existing node in place or
  allocates a fresh parent, and `wrapMulti` always allocates a fresh parent;
- the post-order flattening `getErrors` / `getErrorsRecurcif`, with its
  pruning `map` callback;
- the `mergedData` view built on that flattening.

Files:

- `wrappers.dfy`: `Option` (an omitted argument, or a falsy callback result)
  and `Result` (a value, or the node a constructor throws).
- `wrapped_error.dfy`: module `WrappedErrors`. It holds the data model and the
  `WrappedError` class:
  - `errorType` and `cause` are fixed at construction;
  - `data` is updated in place by the merge path of `wrap`;
  - `FullData()` is what the library's data slot holds: the node's own data
    plus the link entry.

  The module also holds the operations and their specification functions:
  - `Flatten` and `FlattenCauses` specify the flattening;
  - `GetErrorsRecursive` is the library's loop, proved equal to `Flatten`;
  - `Merged` specifies `mergedData`;
  - `MergedData` is the library's accumulate-then-delete loop, proved equal to
    `Merged`.
- `properties.dfy`: module `WrappedErrorProperties`, lemmas about matching,
  the wrap decision, the order and pruning of the flattening, and the merged
  view.
- `scenarios.dfy`: module `WrappedErrorScenarios`, client code that rebuilds
  the situations of the library's test suite and asserts their expected
  outcomes.

Modelling choices:

- A type record is an `ErrorType` value whose `id` stands for its reference.
  Two records are the same record exactly when they are equal.
- A missing or empty `name` or `message` is written `""`.
- `Err` is either a node of this model or an opaque native error.
- Every operation on the causal structure requires `Ranked`: each node sits
  strictly above its causes, so the causal structure is acyclic. The
  constructor establishes `Ranked`, and causes are never changed.
- The library writes the link into a fresh node's data right after
  construction (`src/wrappederror.js:87`, `:99`). The model passes the link to
  the constructor instead. The result is the same node: it has the given type
  and data plus the link entry.
- The `mergedData` callback reads each node's data from the heap. The model
  reads the same maps from a snapshot of the tree's nodes (`Snapshot`), taken
  in the state where the getter runs.
- `mergedData` keeps the root's own link key and removes the other one;
  `MergedDataShape` states exactly what is kept.

## Model

| member | source | states |
|---|---|---|
| `WrappedErrors.WrappedError.constructor` | src/wrappederror.js:6-14 | the node stores exactly the given type record, the given data (which holds no link key) and the given link; it is ranked above its causes |
| `WrappedErrors.WrappedError.Construct` | src/wrappederror.js:6-14 | an omitted type becomes UNDEFINED_ERROR and omitted data becomes `{}`. A type without name or message throws a fresh INVALID_TYPE_DEFINITION node whose data is `{giventype: t}`. Otherwise the result is a fresh node with the type, the data and the link |
| `WrappedErrors.WrappedError.Is` | src/wrappederror.js:61-63 | `is(t)` holds only of the node's own record, so name and message then agree |
| `WrappedErrors.WrappedError.FullData` | src/wrappederror.js:85-101 | the node's data object holds exactly its own keys plus the link key that `wrap`/`wrapMulti` wrote |
| `WrappedErrors.WrappedError.Match` | src/wrappederror.js:79-83 | `match` holds iff the error is a node of this model, the type is omitted or is the node's record, and merging the data into the node would overwrite no value it holds |
| `WrappedErrors.ValueConflict` | src/wrappederror.js:154-158 | a conflict needs the key present in both maps |
| `WrappedErrors.WrappedError.Wrap` | src/wrappederror.js:92-102 | when `match` held, it returns the same node, whose data is the old data updated with `d`. Otherwise the original is untouched and the result is a fresh node of type `t` with data `d` and `originalError` set to the original, or the thrown INVALID_TYPE_DEFINITION node |
| `WrappedErrors.WrappedError.WrapMulti` | src/wrappederror.js:85-90 | always a fresh node of type `t` with data `d` and `originalErrors` set to the given sequence, in order (or the thrown node) |
| `WrappedErrors.Flatten` | src/wrappederror.js:122-152 | the flattening is empty exactly when the root's mapped value is falsy, and otherwise ends with the root's value |
| `WrappedErrors.GetErrorsRecursive` | src/wrappederror.js:122-152 | the recursion with its `forEach` concatenation loop computes exactly the post-order flattening `Flatten` |
| `WrappedErrors.WrappedError.GetErrors` | src/wrappederror.js:57-59 | `getErrors(map)` is the flattening of the tree rooted at the node |
| `WrappedErrors.WrappedError.MergedData` | src/wrappederror.js:35-47 | the getter's assign-all-then-delete loop yields `Merged`: the union of the flattened data maps with the unused link key removed |
| `WrappedErrorProperties.IsComparesIdentity` | src/wrappederror.js:61-63 | a node is of its own type, and never of a record with another identity, even one with the same name and message |
| `WrappedErrorProperties.ValueConflictSymmetric` | src/wrappederror.js:154-158 | conflict does not depend on argument order; a key missing on either side never conflicts |
| `WrappedErrorProperties.MatchWithoutConflicts` | src/wrappederror.js:79-83 | with omitted data, or data whose keys the node does not hold, `match` reduces to the kind and type test |
| `WrappedErrorProperties.ConflictPreventsMatch` | src/wrappederror.js:79-83 | a key present on both sides with different values makes `match` fail, whatever the type |
| `WrappedErrorProperties.MergeKeepsIffNoConflict` | src/wrappederror.js:82 | merging overwrites no existing value iff no key conflicts, in both directions |
| `WrappedErrorProperties.MergeLosesNothing` | src/wrappederror.js:92-96 | on the merge path the node keeps every value it held and gains every entry of `d` |
| `WrappedErrorProperties.ConstructedIs` | src/wrappederror.js:6-14 | construction succeeds iff the (defaulted) type is valid. Then `is(type)` holds and the data is as given. Otherwise the thrown node is INVALID_TYPE_DEFINITION and records the given type |
| `WrappedErrorProperties.WrapWithNothingMatches` | src/wrappederror.js:92-96 | `wrap(e)` on a node, with no type and no data, takes the merge path and leaves the data unchanged |
| `WrappedErrorProperties.FlattenCausesSplit` | src/wrappederror.js:142-149 | flattening a range of causes is flattening any prefix of that range, then the rest |
| `WrappedErrorProperties.FlattenSkipsPrunedCause` | src/wrappederror.js:142-149 | a pruned cause contributes nothing: its siblings before and after it still appear, in order, then the node |
| `WrappedErrorProperties.FlattenLockstep` | src/wrappederror.js:122-152 | two callbacks that prune the same nodes give flattenings of equal length that correspond position by position |
| `WrappedErrorProperties.FlattenCausesLockstep` | src/wrappederror.js:142-149 | the same correspondence for a range of causes |
| `WrappedErrorProperties.FlattenFollowsEmitted` | src/wrappederror.js:122-152 | the flattening is the mapped values of the emitted nodes, in order: mapping never changes the structure |
| `WrappedErrorProperties.EmittedIffReaches` | src/wrappederror.js:122-152 | a node is emitted iff it is reached from the root through unpruned nodes only |
| `WrappedErrorProperties.EmittedCausesIffReaches` | src/wrappederror.js:142-149 | a node is emitted by a range of causes iff one of those causes reaches it through unpruned nodes |
| `WrappedErrorProperties.PrunedNodeNotEmitted` | src/wrappederror.js:123-127 | a node whose mapped value is falsy is never emitted |
| `WrappedErrorProperties.ReachedIsUnpruned` | src/wrappederror.js:123-127 | every node on an emitted path has a truthy mapped value |
| `WrappedErrorProperties.NoMapListsEveryNode` | src/wrappederror.js:123 | without a map an error is listed iff it is reachable from the root, so every node of the tree is listed, and nothing else |
| `WrappedErrorProperties.FlattenKeptRoot` | src/wrappederror.js:129-151 | a node whose value is kept flattens to the flattening of all its causes (none, one or several), then its value |
| `WrappedErrorProperties.TreeListsEachNodeOnce` | src/wrappederror.js:122-152 | without a map, on a tree with no shared error, the listed errors are exactly the tree's errors, and there are as many entries as errors |
| `WrappedErrorProperties.TreeCausesListEachNodeOnce` | src/wrappederror.js:142-149 | the same for the first `hi` causes of a tree node: their flattenings list exactly the errors of their subtrees, as many entries as errors |
| `WrappedErrorProperties.NoMapListsEachNodeOnce` | src/wrappederror.js:122-152 | without a map, `getErrors()` on a tree with no shared error repeats no error, and its length is the number of errors in the tree |
| `WrappedErrorProperties.SharedCauseListedTwice` | src/wrappederror.js:142-149 | an error shared by two causes is listed once per path: `wrapMulti([e1, e1])` flattens to `[e1, e1, e3]`, and is not a tree |
| `WrappedErrorProperties.ChainOrder` | test/wrappederror.test.js:105-131 | a chain e1 <- e2 <- e3 flattens to `[e1, e2, e3]` |
| `WrappedErrorProperties.FanInOrder` | test/wrappederror.test.js:133-159 | `wrapMulti([e1, e2])` flattens to `[e1, e2, e3]` |
| `WrappedErrorProperties.PruningScenarios` | test/wrappederror.test.js:189-273 | in the tree e5 = multi(e3 = multi(e1, e2), e4), dropping e2 gives `[e1, e3, e4, e5]` and dropping e3 gives `[e4, e5]` |
| `WrappedErrorProperties.UnionAllLookup` | src/wrappederror.js:38 | `Object.assign({}, ...maps)` holds a key iff some map does, with the value of the last map that holds it |
| `WrappedErrorProperties.DataListIsNodesData` | src/wrappederror.js:36 | the maps that `mergedData` assigns are the data of the model's nodes in flattening order; native errors contribute nothing |
| `WrappedErrorProperties.MergedDataOfLeaf` | src/wrappederror.js:35-47 | for a node without causes, `mergedData` is its own data |
| `WrappedErrorProperties.MergedDataShape` | src/wrappederror.js:35-47 | for a node with causes, `mergedData` is the union of the tree's data without either link key, plus the root's own link entry |
| `WrappedErrorProperties.MergedDataRootWins` | src/wrappederror.js:35-47 | every key of the root's own data keeps the root's value in `mergedData` |
| `WrappedErrorProperties.MergedDataOutsideLinks` | src/wrappederror.js:35-47 | away from the two link keys, `mergedData` holds a key iff the assignment of the flattened data maps does, with the same value |
| `WrappedErrorProperties.MergedDataLastHolderWins` | src/wrappederror.js:35-47 | a key other than the link keys is in `mergedData` iff some node of the tree holds it, and it takes the value of the last such node in flattening order. That node is not always the nearest to the root: in `wrapMulti([e3, wrap(e6, T7)])` the order is e3, e6, e7, root, so e6 overrides e3 |

## Left out

- `Error.captureStackTrace` (src/wrappederror.js:17), the `Error.prototype`
  inheritance and `instanceof Error`: runtime plumbing with no state of the
  model.
- The `type`, `data`, `name` and `message` getters are projections with no
  operation of their own:
  - `type` (src/wrappederror.js:27-29) is `errorType`;
  - `data` (:31-33) is `FullData()`, the whole data slot including the link
    entry (:87, :99), not the model's `data` field;
  - `name` and `message` (:49-55) are `errorType.name` and
    `errorType.message`.
- The `constructor` getter (src/wrappederror.js:23-25) returns the
  `WrappedError` class itself. It is not a projection of the node, and the
  model has no counterpart for it.
- The property-descriptor copying helper `assign` (src/wrappederror.js:106-120)
  only installs the prototype and the static members.
- JavaScript truthiness beyond `Option`: a `map` result of `0`, `''` or
  `false` also prunes. The model's callback returns `None` for every falsy
  result.
- A type of `null` is treated as an omitted type. On the merge path the library
  behaves the same way. On the new-node path the library crashes reading
  `null.name` (src/wrappederror.js:7), which the model does not reproduce.
- Passing `data = null` is not modelled: data is a map, or omitted (`None`,
  which defaults to `{}`). In the library, `match` throws on `null` data only
  when the error is a `WrappedError` whose type passes the type test
  (src/wrappederror.js:80-82); for a native error it returns false first.
  `new WrappedError(t, null)` succeeds (src/wrappederror.js:14), and the crash
  comes later, when `wrap`/`wrapMulti` write the link (:87, :99) or when
  `mergedData` reads the root's data (:40).
- Causes that are not errors: `Err` holds only error objects, but the library
  accepts any value. `wrap(undefined)` builds a node whose `originalError` is
  `undefined`; `getErrorsRecurcif` treats that as no link
  (src/wrappederror.js:129-130), and `mergedData` keeps that key. A falsy
  entry in `wrapMulti`'s list is skipped when there is no map (:123-126). In
  `mergedData`, a `null` or `undefined` entry makes the callback throw (:36);
  other falsy entries (`0`, `''`, `false`) give `undefined` and are pruned
  (:125-126).
- Aliasing of `wrapMulti`'s list: the library stores the caller's array itself
  (src/wrappederror.js:87), so a later `push` to that array changes the node's
  causes. The model's `cause` is an immutable sequence fixed at construction.
- Aliasing of the caller's data object: the library keeps the caller's object
  itself as the node's data, in the constructor (src/wrappederror.js:14), on
  the new-node path of `wrap` (:98-99, which then adds `originalError` to it)
  and in `wrapMulti` (:86-87, which adds `originalErrors` to it). The model
  stores a copy of the map. So when one data object is passed to two calls,
  the library lets the second call change the first node's link, and the
  model does not. For example, with `d = {}`, `a = wrap(native, T1, d)` and
  then `b = wrap(a, T2, d)` with `T1 !== T2`: `match` fails at :81, and :99
  sets `d.originalError = a`. Since `a`'s data object is `d`, `a` becomes its
  own cause, and `a.getErrors()` recurses without end at :136-137. The
  model's copied maps, fixed causes and `Ranked` rule out such a cycle.
- `in` follows the prototype chain (src/wrappederror.js:157). Inherited keys
  such as `toString` are not modelled.
- Values are compared structurally in `valueConflict`. The library compares
  object and array values by reference.
- Caller data that holds an `originalError` or `originalErrors` key is
  excluded by a `NoLinkKeys` precondition in two places. The first is
  construction: `WrappedError.constructor`, and `Construct`, `Wrap` and
  `WrapMulti` for the fresh node. The second is the data that `Wrap` merges
  into an existing node. In the library such data would create a link
  through data alone, or give a node both links. `data` is a public field,
  so a client that writes a link key into it later is not covered.
- Cyclic causal structures: every operation requires `Ranked`.
