/** The WrappedError error-chain model: error types compared by identity,
    nodes that carry a type, a mutable data map and an immutable link to the
    errors that caused them, the wrap-or-merge decision, the post-order
    flattening of a causal tree and the merged-data view built on it. */
module WrappedErrors {
  import opened Wrappers

  /** An error type record `{ name, message }`. The JavaScript `WrappedError`
      (src/wrappederror.js) compares records by reference; `id` stands for
      that reference, so two records are the same record exactly when they
      are equal here. A missing `name` or `message` is written as the empty
      string. */
  datatype ErrorType = ErrorType(id: nat, name: string, message: string)

  /** The type of a node built without a type. */
  const UndefinedError := ErrorType(0, "UndefinedError", "Undefined error")

  /** The type of the node thrown when a type record is malformed. */
  const InvalidTypeDefinition := ErrorType(1, "Invalid error type definition",
    "Error type definition should be an object defined with at least a name and a message")

  /** A type record is usable when neither its name nor its message is falsy. */
  predicate ValidType(t: ErrorType) {
    t.name != "" && t.message != ""
  }

  /** Anything that can be wrapped: a node of this model or an opaque native
      error, known only by its identity. */
  datatype Err = Native(id: nat) | Wrapped(node: WrappedError)

  /** The causal link of a node: none, a single `originalError`, or an ordered
      list `originalErrors`. */
  datatype Cause = NoCause | One(original: Err) | Many(originals: seq<Err>)

  /** The values a data map holds. */
  datatype Value =
    | Str(s: string)
    | Num(n: int)
    | Bool(b: bool)
    | Null
    | TypeRecord(t: ErrorType)   // the `giventype` entry of a thrown INVALID_TYPE_DEFINITION node
    | ErrorRef(e: Err)           // an `originalError` entry
    | ErrorList(es: seq<Err>)    // an `originalErrors` entry

  type Data = map<string, Value>

  const OriginalErrorKey := "originalError"
  const OriginalErrorsKey := "originalErrors"
  const GivenTypeKey := "giventype"

  /** The data of a caller never uses the two keys that hold the causal link. */
  predicate NoLinkKeys(d: Data) {
    OriginalErrorKey !in d && OriginalErrorsKey !in d
  }

  /** The default `{}` of an omitted data argument. */
  function DataOrEmpty(d: Option<Data>): Data {
    d.GetOr(map[])
  }

  /** The entry that a causal link adds to a node's data. */
  function LinkEntry(c: Cause): Data {
    match c
    case NoCause => map[]
    case One(e) => map[OriginalErrorKey := ErrorRef(e)]
    case Many(es) => map[OriginalErrorsKey := ErrorList(es)]
  }

  function CausesOf(c: Cause): seq<Err> {
    match c
    case NoCause => []
    case One(e) => [e]
    case Many(es) => es
  }

  /** The direct causes of an error; a native error has none. */
  function Causes(e: Err): seq<Err> {
    if e.Native? then [] else CausesOf(e.node.cause)
  }

  /** The objects whose data an error exposes. */
  function NodeSet(e: Err): set<WrappedError> {
    if e.Wrapped? then {e.node} else {}
  }

  ghost function Height(e: Err): nat {
    if e.Native? then 0 else e.node.height
  }

  ghost function MaxHeight(cs: seq<Err>): (h: nat)
    ensures forall i | 0 <= i < |cs| :: Height(cs[i]) <= h
  {
    if cs == [] then 0
    else
      var h := MaxHeight(cs[..|cs| - 1]);
      if Height(cs[|cs| - 1]) > h then Height(cs[|cs| - 1]) else h
  }

  /** The causal structure below `e` is a finite tree (or DAG): every node sits
      strictly above its causes. Every node the constructor builds from ranked
      causes is ranked, and causes never change afterwards. */
  ghost predicate Ranked(e: Err)
    decreases Height(e)
  {
    forall i | 0 <= i < |Causes(e)| :: Height(Causes(e)[i]) < Height(e) && Ranked(Causes(e)[i])
  }

  /** What a call to the JavaScript constructor (`new WrappedError(t, d)`)
      produces, followed, for `wrap` and `wrapMulti`, by the link they write
      into the fresh node: a node with the given (or default) type, the given
      data and the link, or, for a malformed type, the thrown
      INVALID_TYPE_DEFINITION node whose data records the offending type. */
  ghost predicate Constructed(r: Result<WrappedError, WrappedError>, t: Option<ErrorType>, d: Data, c: Cause)
    reads if r.Success? then r.value else r.error
  {
    var given := t.GetOr(UndefinedError);
    if ValidType(given) then
      && r.Success?
      && r.value.errorType == given
      && r.value.data == d
      && r.value.cause == c
    else
      && r.Failure?
      && r.error.errorType == InvalidTypeDefinition
      && r.error.data == map[GivenTypeKey := TypeRecord(given)]
      && r.error.cause == NoCause
  }

  class WrappedError {
    /** The type record, fixed at construction. */
    const errorType: ErrorType
    /** The causal link, fixed at construction. */
    const cause: Cause
    /** The node's own data, without the link entry. */
    var data: Data
    ghost const height: nat

    /** A node with type `t`, own data `d` and link `c`. The link lives in
        `cause` alone: `d` holds no link key of its own. */
    constructor (t: ErrorType, d: Data, c: Cause)
      requires ValidType(t)
      requires NoLinkKeys(d)
      requires forall i | 0 <= i < |CausesOf(c)| :: Ranked(CausesOf(c)[i])
      ensures errorType == t && data == d && cause == c
      ensures Ranked(Wrapped(this))
    {
      errorType, data, cause := t, d, c;
      height := MaxHeight(CausesOf(c)) + 1;
    }

    /** Whether the node's type is the record `t` (identity, not structure). */
    function Is(t: ErrorType): (r: bool)
      ensures r ==> t.name == errorType.name && t.message == errorType.message
    {
      errorType == t
    }

    /** The data object the JavaScript node holds: own data plus the link entry. */
    function FullData(): (r: Data)
      reads this
      ensures r.Keys == data.Keys + LinkEntry(cause).Keys
    {
      data + LinkEntry(cause)
    }

    /** `WrappedError.match`: `e` is a node of this model, `t` is omitted or is
        `e`'s type, and no key of `d` conflicts with `e`'s data. */
    static function Match(e: Err, t: Option<ErrorType>, d: Option<Data>): (r: bool)
      reads NodeSet(e)
      ensures r <==>
        && e.Wrapped?
        && (t.None? || t.value == e.node.errorType)
        && MergeKeeps(e.node.FullData(), DataOrEmpty(d))
    {
      var dd := DataOrEmpty(d);
      && e.Wrapped?
      && (t.None? || e.node.errorType == t.value)
      && !(exists k | k in dd :: ValueConflict(dd, e.node.FullData(), k))
    }

    /** `new WrappedError(t, d)` (src/wrappederror.js:6-14): validates the type, defaults an omitted type
        to UNDEFINED_ERROR and an omitted data map to `{}`; `c` is the link
        that `wrap`/`wrapMulti` store into the fresh node (NoCause for a
        direct construction). A malformed type throws instead. */
    static method Construct(t: Option<ErrorType>, d: Option<Data>, c: Cause) returns (r: Result<WrappedError, WrappedError>)
      requires NoLinkKeys(DataOrEmpty(d))
      requires forall i | 0 <= i < |CausesOf(c)| :: Ranked(CausesOf(c)[i])
      ensures Constructed(r, t, DataOrEmpty(d), c)
      ensures r.Success? ==> fresh(r.value) && Ranked(Wrapped(r.value))
      ensures r.Failure? ==> fresh(r.error) && Ranked(Wrapped(r.error))
    {
      var given := t.GetOr(UndefinedError);
      if !ValidType(given) {
        var thrown := new WrappedError(InvalidTypeDefinition, map[GivenTypeKey := TypeRecord(given)], NoCause);
        return Failure(thrown);
      }
      var node := new WrappedError(given, DataOrEmpty(d), c);
      return Success(node);
    }

    /** `WrappedError.wrap`: when `original` matches `t` and `d`, merge `d`
        into its data in place and return it; otherwise build a fresh node of
        type `t` with data `d` whose `originalError` is `original`. */
    static method Wrap(original: Err, t: Option<ErrorType>, d: Option<Data>) returns (r: Result<WrappedError, WrappedError>)
      requires Ranked(original)
      requires NoLinkKeys(DataOrEmpty(d))
      modifies NodeSet(original)
      ensures old(Match(original, t, d)) ==>
        && r == Success(original.node)
        && original.node.data == old(original.node.data) + DataOrEmpty(d)
      ensures !old(Match(original, t, d)) ==>
        && unchanged(NodeSet(original))
        && Constructed(r, t, DataOrEmpty(d), One(original))
        && (r.Success? ==> fresh(r.value))
        && (r.Failure? ==> fresh(r.error))
      ensures r.Success? ==> Ranked(Wrapped(r.value))
    {
      if Match(original, t, d) {
        original.node.data := original.node.data + DataOrEmpty(d);
        return Success(original.node);
      }
      r := Construct(t, d, One(original));
    }

    /** `WrappedError.wrapMulti`: always a fresh node of type `t` with data `d`
        whose `originalErrors` is `errors`, in order. */
    static method WrapMulti(errors: seq<Err>, t: Option<ErrorType>, d: Option<Data>) returns (r: Result<WrappedError, WrappedError>)
      requires forall i | 0 <= i < |errors| :: Ranked(errors[i])
      requires NoLinkKeys(DataOrEmpty(d))
      ensures Constructed(r, t, DataOrEmpty(d), Many(errors))
      ensures r.Success? ==> fresh(r.value) && Ranked(Wrapped(r.value))
      ensures r.Failure? ==> fresh(r.error)
    {
      r := Construct(t, d, Many(errors));
    }

    /** `getErrors(map)`: the flattening of the tree rooted at this node. */
    method GetErrors<V>(f: Err -> Option<V>) returns (errors: seq<V>)
      requires Ranked(Wrapped(this))
      ensures errors == Flatten(Wrapped(this), f)
    {
      errors := GetErrorsRecursive(Wrapped(this), f);
    }

    /** The value of the `mergedData` getter: the data of every node of the
        tree, in flattening order, assigned one after the other into an empty
        map, then without the link key that the root does not use itself. */
    function Merged(): Data
      requires Ranked(Wrapped(this))
      reads Nodes(Wrapped(this))
    {
      var dataList := Flatten(Wrapped(this), DataOf(Snapshot(Wrapped(this))));
      var merge := UnionAll(dataList);
      match cause
      case One(_) => merge - {OriginalErrorsKey}
      case Many(_) => merge - {OriginalErrorKey}
      case NoCause => merge
    }

    /** The `mergedData` getter. */
    method MergedData() returns (merged: Data)
      requires Ranked(Wrapped(this))
      ensures merged == Merged()
    {
      var snapshot := Snapshot(Wrapped(this));
      var dataList := GetErrors(DataOf(snapshot));
      assert snapshot == Snapshot(Wrapped(this));
      assert dataList == Flatten(Wrapped(this), DataOf(Snapshot(Wrapped(this))));
      merged := map[];
      for i := 0 to |dataList|
        invariant merged == UnionAll(dataList[..i])
      {
        assert dataList[..i + 1][..i] == dataList[..i];
        merged := merged + dataList[i];
      }
      assert dataList[..|dataList|] == dataList;
      assert merged == UnionAll(dataList);
      if cause.One? {
        merged := merged - {OriginalErrorsKey};
      } else if cause.Many? {
        merged := merged - {OriginalErrorKey};
      }
    }
  }

  /** Merging `d` into `existing` overwrites no value that `existing` holds. */
  ghost predicate MergeKeeps(existing: Data, d: Data) {
    forall k | k in existing :: (existing + d)[k] == existing[k]
  }

  /** `valueConflict` of src/wrappederror.js: `key` is set in both maps, to different
      values. */
  function ValueConflict(obj1: Data, obj2: Data, key: string): (r: bool)
    ensures r ==> key in obj1 && key in obj2
  {
    key in obj1 && key in obj2 && obj1[key] != obj2[key]
  }

  /** The flattening of the tree rooted at `e`: each node's causes, flattened
      in order, then the node's own mapped value; a node whose mapped value is
      `None` contributes nothing, and neither do its causes. */
  function Flatten<V>(e: Err, f: Err -> Option<V>): (r: seq<V>)
    requires Ranked(e)
    ensures r == [] <==> f(e).None?
    ensures f(e).Some? ==> r[|r| - 1] == f(e).value
    decreases Height(e), 1, 0
  {
    match f(e)
    case None => []
    case Some(v) =>
      if e.Native? then [v]
      else
        match e.node.cause
        case NoCause => [v]
        case One(c) => assert Causes(e)[0] == c; Flatten(c, f) + [v]
        case Many(cs) => FlattenCauses(e, 0, |cs|, f) + [v]
  }

  /** The flattenings of the causes `lo` (included) to `hi` (excluded) of
      `e`, concatenated in order. */
  function FlattenCauses<V>(e: Err, lo: nat, hi: nat, f: Err -> Option<V>): seq<V>
    requires Ranked(e) && lo <= hi <= |Causes(e)|
    decreases Height(e), 0, hi - lo
  {
    if hi == lo then []
    else FlattenCauses(e, lo, hi - 1, f) + Flatten(Causes(e)[hi - 1], f)
  }

  /** `getErrorsRecurcif` of src/wrappederror.js: the recursion, with the
      `forEach` loop that concatenates the flattenings of several causes. */
  method GetErrorsRecursive<V>(e: Err, f: Err -> Option<V>) returns (errors: seq<V>)
    requires Ranked(e)
    ensures errors == Flatten(e, f)
    decreases Height(e)
  {
    var errorValue := f(e);
    if errorValue.None? {
      return [];
    }
    var hasNoParent := e.Native? || e.node.cause.NoCause?;
    if hasNoParent {
      return [errorValue.value];
    }
    if e.node.cause.One? {
      assert Causes(e)[0] == e.node.cause.original;
      var flattened := GetErrorsRecursive(e.node.cause.original, f);
      return flattened + [errorValue.value];
    }
    var cs := e.node.cause.originals;
    assert Causes(e) == cs;
    errors := [];
    for i := 0 to |cs|
      invariant errors == FlattenCauses(e, 0, i, f)
    {
      var flattened := GetErrorsRecursive(cs[i], f);
      errors := errors + flattened;
    }
    errors := errors + [errorValue.value];
  }

  /** The identity callback: `getErrors()` with no map. */
  function NoMap(e: Err): Option<Err> {
    Some(e)
  }

  /** Keeps the nodes of this model and drops native errors. */
  function AsNode(e: Err): Option<WrappedError> {
    if e.Wrapped? then Some(e.node) else None
  }

  /** The nodes of this model in the tree rooted at `e`. */
  function Nodes(e: Err): (r: set<WrappedError>)
    requires Ranked(e)
    ensures e.Wrapped? ==> e.node in r
  {
    var ns := Flatten(e, AsNode);
    set i | 0 <= i < |ns| :: ns[i]
  }

  /** The full data of every node of the tree, read in the current state. */
  function Snapshot(e: Err): map<WrappedError, Data>
    requires Ranked(e)
    reads Nodes(e)
  {
    map n | n in Nodes(e) :: n.FullData()
  }

  /** The callback `error => error[sdata]` of `mergedData`, reading the data
      from a snapshot: a node gives its data, a native error nothing. */
  function DataOf(snapshot: map<WrappedError, Data>): Err -> Option<Data> {
    (e: Err) => if e.Wrapped? then Some(if e.node in snapshot then snapshot[e.node] else map[]) else None
  }

  /** `Object.assign({}, ...ds)`: later maps override earlier ones. */
  function UnionAll(ds: seq<Data>): Data {
    if ds == [] then map[]
    else UnionAll(ds[..|ds| - 1]) + ds[|ds| - 1]
  }
}
