/** The usage scenarios of the library's test suite
    (test/wrappederror.test.js), written as client code of the model: each
    method builds the errors the scenario builds and asserts what the
    scenario expects. */
module WrappedErrorScenarios {
  import opened Wrappers
  import opened WrappedErrors
  import opened WrappedErrorProperties

  /** A node built without arguments has the UNDEFINED_ERROR type and `{}`. */
  method DefaultType() {
    var r := WrappedError.Construct(None, None, NoCause);
    assert r.Success?;
    var e := r.value;
    assert e.Is(UndefinedError);
    assert e.errorType.name == "UndefinedError" && e.errorType.message == "Undefined error";
    assert e.data == map[];
  }

  /** A node built with its own type record reports that record. */
  method CustomType() {
    var custom := ErrorType(2, "CustomError", "A custom error was thrown");
    var r := WrappedError.Construct(Some(custom), None, NoCause);
    assert r.Success?;
    assert r.value.Is(custom);
    assert r.value.errorType.name == "CustomError";
  }

  /** A type record without name and message makes construction throw. */
  method InvalidType() {
    var empty := ErrorType(3, "", "");
    var r := WrappedError.Construct(Some(empty), None, NoCause);
    assert r.Failure?;
    assert r.error.Is(InvalidTypeDefinition);
    assert r.error.data == map[GivenTypeKey := TypeRecord(empty)];
  }

  /** Wrapping a node with data only completes that node's data in place. */
  method CompleteData() {
    var r := WrappedError.Construct(None, None, NoCause);
    var e := r.value;
    var more := map["key1" := Str("value")];
    MatchWithoutConflicts(Wrapped(e), None, more);
    var w := WrappedError.Wrap(Wrapped(e), None, Some(more));
    assert w == Success(e);
    assert e.data == map[] + more == more;
  }

  /** Wrapping a native error gives a fresh node that records it. */
  method WrapNative() {
    var native := Native(0);
    var r := WrappedError.Wrap(native, None, None);
    assert r.Success?;
    var e := r.value;
    assert e.Is(UndefinedError);
    assert e.FullData()[OriginalErrorKey] == ErrorRef(native);
  }

  /** Wrapping several errors at once records them in order. */
  method WrapSeveral() {
    var report := ErrorType(4, "ErrorsReport", "More than one error occured");
    var errors := [Native(1), Native(2)];
    var r := WrappedError.WrapMulti(errors, Some(report), None);
    assert r.Success?;
    assert r.value.Is(report);
    assert r.value.FullData()[OriginalErrorsKey] == ErrorList(errors);
  }

  /** Wrapping with the same type but a conflicting value builds a new
      parent and leaves the original's data alone. */
  method ConflictingData() {
    var t := ErrorType(5, "errortype", "error type");
    var r1 := WrappedError.Construct(Some(t), Some(map["key" := Str("value1")]), NoCause);
    var e1 := r1.value;
    var update := map["key" := Str("value2")];
    ConflictPreventsMatch(Wrapped(e1), Some(t), update, "key");
    var r2 := WrappedError.Wrap(Wrapped(e1), Some(t), Some(update));
    assert r2.Success?;
    var e2 := r2.value;
    assert e2 != e1;
    assert e2.FullData() == map["key" := Str("value2"), OriginalErrorKey := ErrorRef(Wrapped(e1))];
    assert e1.data == map["key" := Str("value1")];
  }

  /** A chain built with `wrap` flattens to its nodes, deepest first. */
  method FlattenChain() {
    var t1, t2, t3 := ErrorType(6, "erreur1", "Erreur 1"), ErrorType(7, "erreur2", "Erreur 2"), ErrorType(8, "erreur3", "Erreur 3");
    var r1 := WrappedError.Construct(Some(t1), None, NoCause);
    var e1 := r1.value;
    var r2 := WrappedError.Wrap(Wrapped(e1), Some(t2), None);
    var e2 := r2.value;
    var r3 := WrappedError.Wrap(Wrapped(e2), Some(t3), None);
    var e3 := r3.value;
    var list := e3.GetErrors(NoMap);
    ChainOrder(e1, e2, e3);
    assert list == [Wrapped(e1), Wrapped(e2), Wrapped(e3)];
  }

  /** Two nodes wrapped together flatten to both, then their parent. */
  method FlattenFanIn() {
    var t1, t2, t3 := ErrorType(6, "erreur1", "Erreur 1"), ErrorType(7, "erreur2", "Erreur 2"), ErrorType(8, "erreur3", "Erreur 3");
    var r1 := WrappedError.Construct(Some(t1), None, NoCause);
    var e1 := r1.value;
    var r2 := WrappedError.Construct(Some(t2), None, NoCause);
    var e2 := r2.value;
    var r3 := WrappedError.WrapMulti([Wrapped(e1), Wrapped(e2)], Some(t3), None);
    var e3 := r3.value;
    var list := e3.GetErrors(NoMap);
    FanInOrder(Wrapped(e1), Wrapped(e2), e3);
    assert list == [Wrapped(e1), Wrapped(e2), Wrapped(e3)];
  }

  /** The map callback drops a leaf, or a whole subtree. */
  method FlattenPruned() {
    var t := ErrorType(9, "erreur", "Erreur");
    var r1 := WrappedError.Construct(Some(t), None, NoCause);
    var e1 := r1.value;
    var r2 := WrappedError.Construct(Some(t), None, NoCause);
    var e2 := r2.value;
    var r3 := WrappedError.WrapMulti([Wrapped(e1), Wrapped(e2)], Some(t), None);
    var e3 := r3.value;
    var r4 := WrappedError.Construct(Some(t), None, NoCause);
    var e4 := r4.value;
    var r5 := WrappedError.WrapMulti([Wrapped(e3), Wrapped(e4)], Some(t), None);
    var e5 := r5.value;
    PruningScenarios(e1, e2, e3, e4, e5);
    var withoutLeaf := e5.GetErrors(Without(e2));
    assert withoutLeaf == [Wrapped(e1), Wrapped(e3), Wrapped(e4), Wrapped(e5)];
    var withoutSubtree := e5.GetErrors(Without(e3));
    assert withoutSubtree == [Wrapped(e4), Wrapped(e5)];
  }
}
