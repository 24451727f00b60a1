/**
 * The reverse-mode dispatch layer of the expression engine: a call record
 * exposes one backward-propagation entry point per static row count
 * 1..MaxVirtualStaticRows, one for dynamic rows and one for a fully dynamic
 * matrix, all at the node's fixed column count; `reverseAD<Rows>` routes a
 * block to the entry point for its row count, converting blocks with more
 * static rows than the bound to dynamic rows first; and every entry point
 * is wired to the node's single row-generic backward routine.
 *
 * Compile-time structure is modelled as values: matrix types are pairs of
 * `Dim`s, the interface chain is a sequence of entry points, the implementor
 * chain is a table from entry point to handler, and C++ overload resolution
 * is an exact match on parameter types (`None` stands for a call that does
 * not compile).
 */
module CallRecord {
  import opened Matrices
  import opened Keys

  datatype Option<T> = None | Some(value: T)

  /** How many entry points with a specific static row count (1..MaxVirtualStaticRows) a record has. */
  const MaxVirtualStaticRows: nat := 4

  /** The shared accumulator of Jacobian blocks, keyed by variable; never owned by a record. */
  type JacobianMap = map<Key, Matrix>

  /** A compile-time matrix dimension: a fixed size, or Eigen::Dynamic. */
  datatype Dim = Fixed(n: nat) | Dynamic

  /** An upstream derivative block dFdT: its static type (row and column dimension) and its entries. */
  datatype Block = Block(rows: Dim, cols: Dim, entries: Matrix)

  /** The backward-propagation entry points, one per row-count class. */
  datatype RowClass = Static(n: nat) | DynRows | FullyDynamic

  /**
   * The parameter type of an entry point of a record with `cols` columns:
   * Matrix<double, n, Cols>, Matrix<double, Dynamic, Cols>, or Matrix.
   */
  function ParamType(e: RowClass, cols: nat): (Dim, Dim) {
    match e
    case Static(n) => (Fixed(n), Fixed(cols))
    case DynRows => (Dynamic, Fixed(cols))
    case FullyDynamic => (Dynamic, Dynamic)
  }

  /** Distinct entry points take distinct parameter types, so at most one matches a block exactly. */
  lemma ParamTypeInjective(e1: RowClass, e2: RowClass, cols: nat)
    ensures ParamType(e1, cols) == ParamType(e2, cols) <==> e1 == e2
  {
  }

  /**
   * The compile-time test `Rows > MaxVirtualStaticRows`. Eigen::Dynamic is
   * the negative constant -1, so the test is false for dynamic rows.
   */
  predicate ExceedsStaticRows(rows: Dim) {
    rows.Fixed? && rows.n > MaxVirtualStaticRows
  }

  /**
   * ConvertToDynamicRowsIf<convertToDynamicRows>::convert: with `true`, a
   * copy of the block typed with dynamic rows; with `false`, the block itself.
   */
  function ConvertToDynamicRowsIf(convertToDynamicRows: bool, x: Block): (r: Block)
    ensures r.entries == x.entries && r.cols == x.cols
    ensures convertToDynamicRows ==> r.rows == Dynamic
    ensures !convertToDynamicRows ==> r == x
  {
    if convertToDynamicRows then Block(Dynamic, x.cols, x.entries) else x
  }

  /**
   * The entry points declared by ReverseADInterface<level, Cols>, base level
   * first: level 0 declares the dynamic-rows and fully-dynamic entry points,
   * level n inherits level n-1's and adds the one for n static rows.
   */
  function InterfaceEntries(level: nat): (entries: seq<RowClass>)
    ensures |entries| == level + 2
    ensures entries[0] == DynRows && entries[1] == FullyDynamic
    ensures level > 0 ==> entries[level + 1] == Static(level)
  {
    if level == 0 then [DynRows, FullyDynamic] else InterfaceEntries(level - 1) + [Static(level)]
  }

  /**
   * Each level of the interface chain re-exposes the previous level's entry
   * points and adds only its own row count, so level n declares every row
   * class in {1..n} plus the two dynamic ones, each exactly once.
   */
  lemma {:induction false} InterfaceCoversEachClassOnce(level: nat)
    ensures |InterfaceEntries(level)| == level + 2
    ensures forall i, j :: 0 <= i < j < |InterfaceEntries(level)| ==>
              InterfaceEntries(level)[i] != InterfaceEntries(level)[j]
    ensures forall e :: e in InterfaceEntries(level) <==>
              (e == DynRows || e == FullyDynamic || (e.Static? && 1 <= e.n <= level))
  {
    if level > 0 {
      InterfaceCoversEachClassOnce(level - 1);
      var prev := InterfaceEntries(level - 1);
      assert InterfaceEntries(level) == prev + [Static(level)];
      assert Static(level) !in prev;
    }
  }

  /** The record interface (level MaxVirtualStaticRows) has exactly the six entry points Static(1..4), DynRows, FullyDynamic. */
  lemma RecordInterfaceEntries()
    ensures InterfaceEntries(MaxVirtualStaticRows)
         == [DynRows, FullyDynamic, Static(1), Static(2), Static(3), Static(4)]
  {
    assert InterfaceEntries(1) == [DynRows, FullyDynamic, Static(1)];
    assert InterfaceEntries(2) == [DynRows, FullyDynamic, Static(1), Static(2)];
    assert InterfaceEntries(3) == [DynRows, FullyDynamic, Static(1), Static(2), Static(3)];
  }

  /**
   * Overload resolution among `entries` for an argument of static type `t`:
   * the entry point whose parameter type is exactly `t`, or None when there
   * is none (the call does not compile).
   */
  function Resolve(entries: seq<RowClass>, cols: nat, t: (Dim, Dim)): (r: Option<RowClass>)
    ensures r.Some? ==> r.value in entries && ParamType(r.value, cols) == t
    ensures r.None? ==> forall e :: e in entries ==> ParamType(e, cols) != t
  {
    if |entries| == 0 then None
    else if ParamType(entries[0], cols) == t then Some(entries[0])
    else Resolve(entries[1..], cols, t)
  }

  /**
   * The entry point that `CallRecord<cols>::reverseAD<Rows>` reaches for a
   * block with `rows` static rows: the block is converted when its rows
   * exceed the bound, then the record's overloads are resolved on its type.
   */
  function Route(rows: Dim, cols: nat): (r: Option<RowClass>)
    ensures r.Some? ==> r.value in InterfaceEntries(MaxVirtualStaticRows) && ParamType(r.value, cols).1 == Fixed(cols)
  {
    var converted := if ExceedsStaticRows(rows) then Dynamic else rows;
    Resolve(InterfaceEntries(MaxVirtualStaticRows), cols, (converted, Fixed(cols)))
  }

  /**
   * Routing rule: a block with 1..4 static rows reaches the entry point for
   * exactly that row count; one with more static rows, or with dynamic rows,
   * reaches the dynamic-rows entry point; the fully-dynamic entry point is
   * never reached this way; a block with 0 static rows matches no entry point.
   */
  lemma RouteByRowCount(rows: Dim, cols: nat)
    ensures rows.Fixed? && 1 <= rows.n <= MaxVirtualStaticRows ==> Route(rows, cols) == Some(Static(rows.n))
    ensures rows.Fixed? && rows.n > MaxVirtualStaticRows ==> Route(rows, cols) == Some(DynRows)
    ensures rows.Dynamic? ==> Route(rows, cols) == Some(DynRows)
    ensures rows == Fixed(0) ==> Route(rows, cols) == None
    ensures Route(rows, cols) != Some(FullyDynamic)
  {
    InterfaceCoversEachClassOnce(MaxVirtualStaticRows);
    var entries := InterfaceEntries(MaxVirtualStaticRows);
    var converted := if ExceedsStaticRows(rows) then Dynamic else rows;
    var r := Resolve(entries, cols, (converted, Fixed(cols)));
    if rows.Fixed? && 1 <= rows.n <= MaxVirtualStaticRows {
      assert Static(rows.n) in entries && ParamType(Static(rows.n), cols) == (converted, Fixed(cols));
      ParamTypeInjective(r.value, Static(rows.n), cols);
    } else if rows != Fixed(0) {
      assert DynRows in entries && ParamType(DynRows, cols) == (converted, Fixed(cols));
      ParamTypeInjective(r.value, DynRows, cols);
    } else {
      assert forall e :: e in entries ==> ParamType(e, cols) != (converted, Fixed(cols));
    }
  }

  /** The node's row-generic backward routine `Derived::reverseAD(dFdT, jacobians)`. */
  type Routine = (Block, JacobianMap) -> JacobianMap

  /** An entry point's handler: pass the block and the accumulator on to the routine unchanged. */
  function Forward(reverseAD: Routine): Routine {
    (dFdT: Block, jacobians: JacobianMap) => reverseAD(dFdT, jacobians)
  }

  /**
   * ReverseADImplementor<Derived, level, Cols>: level 0 implements the two
   * dynamic entry points, level n inherits level n-1's handlers and adds the
   * one for n static rows; every handler forwards to `reverseAD`.
   */
  function ImplementorTable(level: nat, reverseAD: Routine): (table: map<RowClass, Routine>)
    ensures forall e :: e in InterfaceEntries(level) ==> e in table
  {
    if level == 0 then map[DynRows := Forward(reverseAD), FullyDynamic := Forward(reverseAD)]
    else ImplementorTable(level - 1, reverseAD)[Static(level) := Forward(reverseAD)]
  }

  /**
   * The implementor chain implements exactly the entry points the interface
   * chain declares, level by level, and each of them hands the same block
   * and the same accumulator to `reverseAD`.
   */
  lemma {:induction false} ImplementorMatchesInterface(level: nat, reverseAD: Routine)
    ensures ImplementorTable(level, reverseAD).Keys == set e | e in InterfaceEntries(level)
    ensures forall e, dFdT, jacobians :: e in ImplementorTable(level, reverseAD) ==>
              ImplementorTable(level, reverseAD)[e](dFdT, jacobians) == reverseAD(dFdT, jacobians)
  {
    if level > 0 {
      ImplementorMatchesInterface(level - 1, reverseAD);
    }
  }

  /**
   * A call record: its column count, the handler of each entry point, and
   * the node's `print` (modelled by the text it writes) and `startReverseAD`.
   */
  datatype Record = Record(
    cols: nat,
    handlers: map<RowClass, Routine>,
    printHook: string -> string,
    startHook: JacobianMap -> JacobianMap)

  /** A record is complete when it implements every entry point of its interface. */
  predicate Complete(rec: Record) {
    rec.handlers.Keys == set e | e in InterfaceEntries(MaxVirtualStaticRows)
  }

  /**
   * CallRecordImplementor<Derived, Cols>: the record for a node with `cols`
   * columns whose three node-specific operations are given.
   */
  function Implement(cols: nat, reverseAD: Routine, printText: string -> string,
                     startReverseAD: JacobianMap -> JacobianMap): (rec: Record)
    ensures rec.cols == cols && Complete(rec)
    ensures forall e, dFdT, jacobians :: e in rec.handlers ==>
              rec.handlers[e](dFdT, jacobians) == reverseAD(dFdT, jacobians)
    ensures forall indent :: rec.printHook(indent) == printText(indent)
    ensures forall jacobians :: rec.startHook(jacobians) == startReverseAD(jacobians)
  {
    ImplementorMatchesInterface(MaxVirtualStaticRows, reverseAD);
    Record(cols, ImplementorTable(MaxVirtualStaticRows, reverseAD),
           indent => printText(indent), jacobians => startReverseAD(jacobians))
  }

  /** CallRecord::print: the text the node's own `print` writes for `indent`. */
  function Print(rec: Record, indent: string): (text: string) {
    rec.printHook(indent)
  }

  /** CallRecord::startReverseAD: the node's own `startReverseAD` applied to the accumulator. */
  function StartReverseAD(rec: Record, jacobians: JacobianMap): (result: JacobianMap) {
    rec.startHook(jacobians)
  }

  /**
   * CallRecord::reverseAD<Rows>: the accumulator after propagating `dFdT`,
   * or None when the call does not compile (the block's columns are not the
   * record's, no entry point matches, or the record lacks the handler).
   */
  function ReverseAD(rec: Record, dFdT: Block, jacobians: JacobianMap): (r: Option<JacobianMap>)
    ensures r.Some? ==> dFdT.cols == Fixed(rec.cols)
    ensures r.Some? <==> dFdT.cols == Fixed(rec.cols) && Route(dFdT.rows, rec.cols).Some?
                         && Route(dFdT.rows, rec.cols).value in rec.handlers
  {
    if dFdT.cols != Fixed(rec.cols) then None
    else
      var x := ConvertToDynamicRowsIf(ExceedsStaticRows(dFdT.rows), dFdT);
      match Route(dFdT.rows, rec.cols)
      case None => None
      case Some(e) => if e in rec.handlers then Some(rec.handlers[e](x, jacobians)) else None
  }

  /** The print and startReverseAD of an implemented record forward their arguments unchanged to the node's own. */
  lemma ImplementForwardsPrintAndStart(cols: nat, reverseAD: Routine, printText: string -> string,
                                       startReverseAD: JacobianMap -> JacobianMap,
                                       indent: string, jacobians: JacobianMap)
    ensures Print(Implement(cols, reverseAD, printText, startReverseAD), indent) == printText(indent)
    ensures StartReverseAD(Implement(cols, reverseAD, printText, startReverseAD), jacobians)
         == startReverseAD(jacobians)
  {
  }

  /**
   * Propagating a block through an implemented record reaches the node's
   * routine with the accumulator unchanged: a block with 1..4 static rows or
   * with dynamic rows is passed as it is; one with more static rows is
   * passed with the same entries and columns, typed with dynamic rows (no
   * truncation). A block with 0 static rows or other columns does not compile.
   */
  lemma ReverseADReachesRoutine(cols: nat, reverseAD: Routine, printText: string -> string,
                                startReverseAD: JacobianMap -> JacobianMap,
                                dFdT: Block, jacobians: JacobianMap)
    ensures var rec := Implement(cols, reverseAD, printText, startReverseAD);
            (dFdT.cols == Fixed(cols) && dFdT.rows != Fixed(0) ==>
              ReverseAD(rec, dFdT, jacobians)
                == Some(reverseAD(if ExceedsStaticRows(dFdT.rows) then dFdT.(rows := Dynamic) else dFdT,
                                  jacobians)))
            && (dFdT.cols != Fixed(cols) || dFdT.rows == Fixed(0) ==> ReverseAD(rec, dFdT, jacobians) == None)
  {
    RouteByRowCount(dFdT.rows, cols);
    RecordInterfaceEntries();
  }

  /** A routine is row-generic when what it does depends on the block's entries and not on its static type. */
  ghost predicate RowGeneric(reverseAD: Routine) {
    forall b1: Block, b2: Block, jacobians :: b1.entries == b2.entries ==>
      reverseAD(b1, jacobians) == reverseAD(b2, jacobians)
  }

  /**
   * Static/dynamic equivalence: for a row-generic routine, propagating a
   * block with 1..4 static rows and propagating the same entries as a
   * dynamic-rows block give the same accumulator.
   */
  lemma StaticDynamicEquivalence(rec: Record, reverseAD: Routine, printText: string -> string,
                                 startReverseAD: JacobianMap -> JacobianMap,
                                 dFdT: Block, jacobians: JacobianMap)
    requires rec == Implement(rec.cols, reverseAD, printText, startReverseAD)
    requires RowGeneric(reverseAD)
    requires dFdT.cols == Fixed(rec.cols)
    requires dFdT.rows.Fixed? && 1 <= dFdT.rows.n <= MaxVirtualStaticRows
    ensures ReverseAD(rec, dFdT, jacobians).Some?
    ensures ReverseAD(rec, dFdT, jacobians) == ReverseAD(rec, dFdT.(rows := Dynamic), jacobians)
  {
    ReverseADReachesRoutine(rec.cols, reverseAD, printText, startReverseAD, dFdT, jacobians);
    ReverseADReachesRoutine(rec.cols, reverseAD, printText, startReverseAD, dFdT.(rows := Dynamic), jacobians);
  }

  /**
   * Overflow routing: propagating a block with more than 4 static rows gives
   * exactly what propagating the same entries as a dynamic-rows block gives,
   * whatever the routine.
   */
  lemma OverflowMatchesDynamic(rec: Record, reverseAD: Routine, printText: string -> string,
                               startReverseAD: JacobianMap -> JacobianMap,
                               dFdT: Block, jacobians: JacobianMap)
    requires rec == Implement(rec.cols, reverseAD, printText, startReverseAD)
    requires dFdT.cols == Fixed(rec.cols)
    requires dFdT.rows.Fixed? && dFdT.rows.n > MaxVirtualStaticRows
    ensures ReverseAD(rec, dFdT, jacobians).Some?
    ensures ReverseAD(rec, dFdT, jacobians) == ReverseAD(rec, dFdT.(rows := Dynamic), jacobians)
  {
    ReverseADReachesRoutine(rec.cols, reverseAD, printText, startReverseAD, dFdT, jacobians);
    ReverseADReachesRoutine(rec.cols, reverseAD, printText, startReverseAD, dFdT.(rows := Dynamic), jacobians);
  }

  /**
   * Every entry point of an implemented record, static or dynamic, has the
   * same effect on the accumulator for the same block: that of the routine.
   */
  lemma EntryPointsAgree(cols: nat, reverseAD: Routine, printText: string -> string,
                         startReverseAD: JacobianMap -> JacobianMap,
                         e1: RowClass, e2: RowClass, dFdT: Block, jacobians: JacobianMap)
    requires e1 in InterfaceEntries(MaxVirtualStaticRows) && e2 in InterfaceEntries(MaxVirtualStaticRows)
    ensures var rec := Implement(cols, reverseAD, printText, startReverseAD);
            e1 in rec.handlers && e2 in rec.handlers
            && rec.handlers[e1](dFdT, jacobians) == rec.handlers[e2](dFdT, jacobians)
            && rec.handlers[e1](dFdT, jacobians) == reverseAD(dFdT, jacobians)
  {
  }
}
