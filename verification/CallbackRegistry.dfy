/** Ownership of JavaScript callbacks in the WASM binding: one registry of ids per thread, a name
    table per workbook shared by all its handles, and the handlers inside each engine, which know
    callbacks only by id. */
module CallbackRegistry {
  import opened Options

  const U64_SIZE: nat := 0x1_0000_0000_0000_0000

  type Function = int
  type WorkbookId = nat

  /** `Char::is_whitespace`. */
  predicate IsWhitespace(c: char) {
    || '\U{9}' <= c <= '\U{D}' || c == ' ' || c == '\U{85}' || c == '\U{A0}' || c == '\U{1680}'
    || '\U{2000}' <= c <= '\U{200A}' || c == '\U{2028}' || c == '\U{2029}' || c == '\U{202F}'
    || c == '\U{205F}' || c == '\U{3000}'
  }

  function TrimLeft(s: string): string {
    if s != "" && IsWhitespace(s[0]) then TrimLeft(s[1..]) else s
  }

  function TrimRight(s: string): string {
    if s != "" && IsWhitespace(s[|s| - 1]) then TrimRight(s[..|s| - 1]) else s
  }

  function UpperAscii(s: string): string {
    seq(|s|, i requires 0 <= i < |s| => if 'a' <= s[i] <= 'z' then s[i] - 'a' + 'A' else s[i])
  }

  /** `normalize_custom_function_name`, in the binding and in the engine alike. */
  function Canonical(name: string): string {
    UpperAscii(TrimRight(TrimLeft(name)))
  }

  /** One workbook: how many handles share it, its name table, and its engine's handlers. A sheet
      object keeps the engine alive after the last handle is gone. */
  datatype Workbook = Workbook(handles: nat, names: map<string, nat>, handlers: map<string, nat>)

  datatype State = State(nextId: nat, callbacks: map<nat, Function>, workbooks: map<WorkbookId, Workbook>)

  datatype CallError = EmptyName | EngineError | NoHandle | Dangling

  /** `wrapping_add(1).max(1)` on u64. */
  function FreshId(nextId: nat): (id: nat)
    ensures 1 <= id
    ensures nextId + 1 < U64_SIZE ==> id == nextId + 1
  {
    if nextId + 1 >= U64_SIZE then 1 else nextId + 1
  }

  predicate IsOpen(s: State, w: WorkbookId) {
    w in s.workbooks && s.workbooks[w].handles > 0
  }

  function Remove(callbacks: map<nat, Function>, ids: set<nat>): map<nat, Function> {
    callbacks - ids
  }

  // ----- The operations on the state -----

  /** `register_function`. `valid` stands for the engine's checks of arity and built-in names. */
  function Register(s: State, w: WorkbookId, name: string, f: Function, valid: bool): (State, Result<(), CallError>) {
    var n := Canonical(name);
    if !IsOpen(s, w) then (s, Err(NoHandle))
    else if n == "" then (s, Err(EmptyName))
    else
      var id := FreshId(s.nextId);
      var inserted := s.callbacks[id := f];
      var wb := s.workbooks[w];
      if !valid || n in wb.handlers then
        (s.(nextId := id, callbacks := Remove(inserted, {id})), Err(EngineError))
      else
        var previous := if n in wb.names then {wb.names[n]} else {};
        var wb' := wb.(names := wb.names[n := id], handlers := wb.handlers[n := id]);
        (State(id, Remove(inserted, previous), s.workbooks[w := wb']), Ok(()))
  }

  /** `unregister_function`. */
  function Unregister(s: State, w: WorkbookId, name: string): (State, Result<(), CallError>) {
    var n := Canonical(name);
    if !IsOpen(s, w) then (s, Err(NoHandle))
    else if n == "" then (s, Err(EmptyName))
    else if n !in s.workbooks[w].handlers then (s, Err(EngineError))
    else
      var wb := s.workbooks[w];
      var freed := if n in wb.names then {wb.names[n]} else {};
      var wb' := wb.(names := wb.names - {n}, handlers := wb.handlers - {n});
      (s.(callbacks := Remove(s.callbacks, freed), workbooks := s.workbooks[w := wb']), Ok(()))
  }

  /** A new workbook under an id not used before. */
  function Open(s: State, w: WorkbookId): State {
    if w in s.workbooks then s else s.(workbooks := s.workbooks[w := Workbook(1, map[], map[])])
  }

  function Clone(s: State, w: WorkbookId): State {
    if !IsOpen(s, w) then s
    else s.(workbooks := s.workbooks[w := s.workbooks[w].(handles := s.workbooks[w].handles + 1)])
  }

  /** Dropping a handle; the last one empties the name table and frees its callbacks. */
  function Drop(s: State, w: WorkbookId): State {
    if !IsOpen(s, w) then s
    else
      var wb := s.workbooks[w];
      if wb.handles > 1 then s.(workbooks := s.workbooks[w := wb.(handles := wb.handles - 1)])
      else State(s.nextId, Remove(s.callbacks, wb.names.Values),
                 s.workbooks[w := wb.(handles := 0, names := map[])])
  }

  /** `JsCustomFnHandler::call`: which function an engine reaches under a name. */
  function Invoke(s: State, w: WorkbookId, n: string): Result<Function, CallError> {
    if w !in s.workbooks || n !in s.workbooks[w].handlers then Err(NoHandle)
    else if s.workbooks[w].handlers[n] !in s.callbacks then Err(Dangling)
    else Ok(s.callbacks[s.workbooks[w].handlers[n]])
  }

  // ----- Ownership -----

  predicate Owns(s: State, w: WorkbookId, n: string, id: nat) {
    w in s.workbooks && n in s.workbooks[w].names && s.workbooks[w].names[n] == id
  }

  ghost predicate Owned(s: State, id: nat) {
    exists w, n :: Owns(s, w, n, id)
  }

  /** In an open workbook the engine's handlers are the name table; a closed one owns nothing. */
  predicate TablesAgree(s: State, w: WorkbookId)
    requires w in s.workbooks
  {
    s.workbooks[w].names == if s.workbooks[w].handles > 0 then s.workbooks[w].handlers else map[]
  }

  /** The registry's ids are exactly the ids of the name tables, each under one name of one
      workbook, and the tables agree with the engines. */
  ghost predicate Ownership(s: State) {
    && (forall w, n, id :: Owns(s, w, n, id) ==> id in s.callbacks)
    && (forall id :: id in s.callbacks ==> Owned(s, id))
    && (forall w, n, w', n', id :: Owns(s, w, n, id) && Owns(s, w', n', id) ==> w == w' && n == n')
    && (forall w :: w in s.workbooks ==> TablesAgree(s, w))
  }

  /** No id past the counter was ever handed out, and the handlers that a closed workbook leaves
      behind in its engine point nowhere. */
  ghost predicate Freshness(s: State) {
    && (forall id :: id in s.callbacks ==> id <= s.nextId)
    && (forall w, n :: w in s.workbooks && n in s.workbooks[w].handlers ==> s.workbooks[w].handlers[n] <= s.nextId)
    && (forall w, n :: w in s.workbooks && s.workbooks[w].handles == 0 && n in s.workbooks[w].handlers
          ==> s.workbooks[w].handlers[n] !in s.callbacks)
  }

  ghost predicate Inv(s: State) {
    Ownership(s) && Freshness(s)
  }

  /** Open workbooks never reach a missing callback: every handler has its function. */
  lemma OpenNeverDangles(s: State, w: WorkbookId, n: string)
    requires Ownership(s) && IsOpen(s, w)
    ensures Invoke(s, w, n).Ok? <==> n in s.workbooks[w].handlers
  {
    assert TablesAgree(s, w);
    if n in s.workbooks[w].handlers {
      assert Owns(s, w, n, s.workbooks[w].handlers[n]);
    }
  }

  /** The call gets as far as the registry. */
  predicate Reaches(s: State, w: WorkbookId, name: string) {
    IsOpen(s, w) && Canonical(name) != ""
  }

  /** The engine refuses names it knows, and it knows the table's names: no registration ever
      replaces an id in the table. */
  lemma NothingToReplace(s: State, w: WorkbookId, n: string)
    requires Ownership(s) && IsOpen(s, w) && n !in s.workbooks[w].handlers
    ensures n !in s.workbooks[w].names
  {
    assert TablesAgree(s, w);
  }

  lemma CounterOnly(s: State, s': State)
    requires Ownership(s) && s'.callbacks == s.callbacks && s'.workbooks == s.workbooks
    ensures Ownership(s')
  {
    assert forall w, n, id :: Owns(s', w, n, id) <==> Owns(s, w, n, id);
    forall i | i in s'.callbacks ensures Owned(s', i) {
      var w0, n0 :| Owns(s, w0, n0, i);
      assert Owns(s', w0, n0, i);
    }
    assert forall w :: w in s.workbooks ==> TablesAgree(s, w);
  }

  lemma RegisterOwnership(s: State, w: WorkbookId, name: string, f: Function, valid: bool)
    requires Ownership(s) && Reaches(s, w, name) && FreshId(s.nextId) !in s.callbacks
    ensures Ownership(Register(s, w, name, f, valid).0)
  {
    hide Canonical;
    var n, id := Canonical(name), FreshId(s.nextId);
    var s' := Register(s, w, name, f, valid).0;
    if !valid || n in s.workbooks[w].handlers {
      assert s'.callbacks == s.callbacks;
      CounterOnly(s, s');
    } else {
      NothingToReplace(s, w, n);
      assert s'.callbacks == s.callbacks[id := f];
      assert forall w0, n0, i :: Owns(s', w0, n0, i) <==> (if w0 == w && n0 == n then i == id else Owns(s, w0, n0, i));
      forall i | i in s'.callbacks ensures Owned(s', i) {
        if i == id {
          assert Owns(s', w, n, id);
        } else {
          var w0, n0 :| Owns(s, w0, n0, i);
          assert Owns(s', w0, n0, i);
        }
      }
      forall w0 | w0 in s'.workbooks ensures TablesAgree(s', w0) {
        assert TablesAgree(s, w0);
      }
    }
  }

  /** A registration that reaches the registry keeps the ownership exactly when the fresh id is not
      in use, whether the engine then accepts the function or not. */
  lemma RegisterIff(s: State, w: WorkbookId, name: string, f: Function, valid: bool)
    requires Ownership(s) && Reaches(s, w, name)
    ensures Ownership(Register(s, w, name, f, valid).0) <==> FreshId(s.nextId) !in s.callbacks
  {
    var n, id := Canonical(name), FreshId(s.nextId);
    hide Canonical;
    var s' := Register(s, w, name, f, valid).0;
    if id !in s.callbacks {
      RegisterOwnership(s, w, name, f, valid);
    } else {
      var w0, n0 :| Owns(s, w0, n0, id);
      if valid && n !in s.workbooks[w].handlers {
        NothingToReplace(s, w, n);
        assert Owns(s', w, n, id) && Owns(s', w0, n0, id);
      } else {
        assert Owns(s', w0, n0, id) && id !in s'.callbacks;
      }
    }
  }

  lemma RegisterFreshness(s: State, w: WorkbookId, name: string, f: Function, valid: bool)
    requires Inv(s) && s.nextId + 1 < U64_SIZE
    ensures Inv(Register(s, w, name, f, valid).0)
  {
    if Reaches(s, w, name) {
      RegisterOwnership(s, w, name, f, valid);
      hide Canonical, Ownership;
    }
  }

  lemma UnregisterOwnership(s: State, w: WorkbookId, name: string)
    requires Inv(s)
    ensures Inv(Unregister(s, w, name).0)
  {
    var n := Canonical(name);
    hide Canonical;
    var (s', r) := Unregister(s, w, name);
    if r.Ok? {
      assert TablesAgree(s, w);
      var freed := s.workbooks[w].names[n];
      assert Owns(s, w, n, freed);
      assert forall w0, n0, i :: Owns(s', w0, n0, i) <==> Owns(s, w0, n0, i) && !(w0 == w && n0 == n);
      forall i | i in s'.callbacks ensures Owned(s', i) {
        var w0, n0 :| Owns(s, w0, n0, i);
        assert Owns(s', w0, n0, i);
      }
      forall w0 | w0 in s'.workbooks ensures TablesAgree(s', w0) {
        assert TablesAgree(s, w0);
      }
    }
  }

  lemma OpenOwnership(s: State, w: WorkbookId)
    requires Inv(s)
    ensures Inv(Open(s, w))
  {
    var s' := Open(s, w);
    assert forall w0, n0, i :: Owns(s', w0, n0, i) <==> Owns(s, w0, n0, i);
    forall i | i in s'.callbacks ensures Owned(s', i) {
      var w0, n0 :| Owns(s, w0, n0, i);
      assert Owns(s', w0, n0, i);
    }
    forall w0 | w0 in s'.workbooks ensures TablesAgree(s', w0) {
      assert w0 in s.workbooks ==> TablesAgree(s, w0);
    }
  }

  lemma HandleCountOwnership(s: State, w: WorkbookId, handles: nat)
    requires Inv(s) && IsOpen(s, w) && handles > 0
    ensures Inv(s.(workbooks := s.workbooks[w := s.workbooks[w].(handles := handles)]))
  {
    var s' := s.(workbooks := s.workbooks[w := s.workbooks[w].(handles := handles)]);
    assert forall w0, n0, i :: Owns(s', w0, n0, i) <==> Owns(s, w0, n0, i);
    forall i | i in s'.callbacks ensures Owned(s', i) {
      var w0, n0 :| Owns(s, w0, n0, i);
      assert Owns(s', w0, n0, i);
    }
    forall w0 | w0 in s'.workbooks ensures TablesAgree(s', w0) {
      assert TablesAgree(s, w0);
    }
  }

  lemma DropOwnership(s: State, w: WorkbookId)
    requires Inv(s)
    ensures Inv(Drop(s, w))
  {
    if IsOpen(s, w) {
      var wb, s' := s.workbooks[w], Drop(s, w);
      if wb.handles > 1 {
        HandleCountOwnership(s, w, wb.handles - 1);
      } else {
        assert TablesAgree(s, w);
        forall i | i in wb.names.Values ensures exists n :: Owns(s, w, n, i) {
          var n :| n in wb.names && wb.names[n] == i;
          assert Owns(s, w, n, i);
        }
        assert forall n :: n in wb.names ==> wb.names[n] in wb.names.Values && Owns(s, w, n, wb.names[n]);
        assert forall w0, n0, i :: Owns(s', w0, n0, i) <==> Owns(s, w0, n0, i) && w0 != w;
        forall i | i in s'.callbacks ensures Owned(s', i) {
          var w0, n0 :| Owns(s, w0, n0, i);
          assert Owns(s', w0, n0, i);
        }
        forall w0 | w0 in s'.workbooks ensures TablesAgree(s', w0) {
          assert TablesAgree(s, w0);
        }
      }
    }
  }

  // ----- What the operations mean to a caller -----

  /** A successful registration makes the name reach the new function, in this workbook under this
      name and nowhere else; a failed one changes nothing anyone can call. */
  lemma RegisterMeans(s: State, w: WorkbookId, name: string, f: Function, valid: bool, w0: WorkbookId, n0: string)
    requires Inv(s) && s.nextId + 1 < U64_SIZE
    ensures var (s', r) := Register(s, w, name, f, valid);
            Invoke(s', w0, n0) == if r.Ok? && w0 == w && n0 == Canonical(name) then Ok(f) else Invoke(s, w0, n0)
  {
    hide Canonical;
    if Reaches(s, w, name) && valid && Canonical(name) !in s.workbooks[w].handlers {
      NothingToReplace(s, w, Canonical(name));
    }
  }

  lemma UnregisterMeans(s: State, w: WorkbookId, name: string, w0: WorkbookId, n0: string)
    requires Inv(s)
    ensures var (s', r) := Unregister(s, w, name);
            Invoke(s', w0, n0) == if r.Ok? && w0 == w && n0 == Canonical(name) then Err(NoHandle) else Invoke(s, w0, n0)
  {
    var n := Canonical(name);
    hide Canonical;
    if Unregister(s, w, name).1.Ok? {
      assert TablesAgree(s, w);
      assert Owns(s, w, n, s.workbooks[w].names[n]);
      HandlerOwned(s, w0, n0);
    }
  }

  /** An id behind a handler that reaches a function is owned under that very name. */
  lemma HandlerOwned(s: State, w: WorkbookId, n: string)
    requires Inv(s)
    ensures Invoke(s, w, n).Ok? ==> Owns(s, w, n, s.workbooks[w].handlers[n])
  {
    if Invoke(s, w, n).Ok? {
      assert TablesAgree(s, w);
    }
  }

  /** Dropping a handle that is not the last changes nothing; dropping the last one leaves the
      workbook's own functions dangling, for sheets that still hold its engine, and touches no
      other workbook. */
  lemma DropMeans(s: State, w: WorkbookId, w0: WorkbookId, n0: string)
    requires Inv(s)
    ensures Invoke(Drop(s, w), w0, n0) ==
            if IsOpen(s, w) && s.workbooks[w].handles == 1 && w0 == w && n0 in s.workbooks[w].handlers
            then Err(Dangling)
            else Invoke(s, w0, n0)
  {
    if IsOpen(s, w) {
      assert TablesAgree(s, w);
      var names := s.workbooks[w].names;
      assert forall n :: n in names ==> names[n] in names.Values;
      HandlerOwned(s, w0, n0);
      forall i | i in names.Values ensures exists n :: Owns(s, w, n, i) {
        var n :| n in names && names[n] == i;
        assert Owns(s, w, n, i);
      }
    }
  }

  // ----- Runs -----

  datatype Op =
    | RegisterOp(w: WorkbookId, name: string, f: Function, valid: bool)
    | UnregisterOp(w: WorkbookId, name: string)
    | OpenOp(w: WorkbookId)
    | CloneOp(w: WorkbookId)
    | DropOp(w: WorkbookId)

  function Apply(s: State, op: Op): State {
    match op
    case RegisterOp(w, name, f, valid) => Register(s, w, name, f, valid).0
    case UnregisterOp(w, name) => Unregister(s, w, name).0
    case OpenOp(w) => Open(s, w)
    case CloneOp(w) => Clone(s, w)
    case DropOp(w) => Drop(s, w)
  }

  function Run(ops: seq<Op>): State {
    if ops == [] then State(0, map[], map[]) else Apply(Run(ops[..|ops| - 1]), ops[|ops| - 1])
  }

  function Registrations(ops: seq<Op>): nat {
    if ops == [] then 0
    else Registrations(ops[..|ops| - 1]) + if ops[|ops| - 1].RegisterOp? then 1 else 0
  }

  /** Over all runs with fewer than 2^64 registrations, over any number of workbooks and handles. */
  lemma {:induction false} RunKeepsInv(ops: seq<Op>)
    requires Registrations(ops) < U64_SIZE
    ensures Inv(Run(ops)) && Run(ops).nextId <= Registrations(ops)
  {
    if ops != [] {
      var front, op := ops[..|ops| - 1], ops[|ops| - 1];
      RunKeepsInv(front);
      var s := Run(front);
      hide Inv, Canonical;
      match op
      case RegisterOp(w, name, f, valid) => RegisterFreshness(s, w, name, f, valid);
      case UnregisterOp(w, name) => UnregisterOwnership(s, w, name);
      case OpenOp(w) => OpenOwnership(s, w);
      case CloneOp(w) => if IsOpen(s, w) { HandleCountOwnership(s, w, s.workbooks[w].handles + 1); }
      case DropOp(w) => DropOwnership(s, w);
    }
  }

  lemma RemoveNothing(callbacks: map<nat, Function>)
    ensures Remove(callbacks, {}) == callbacks
  {
  }

  // ----- The binding, statement by statement -----

  class Bindings {
    var nextId: nat
    var callbacks: map<nat, Function>
    var workbooks: map<WorkbookId, Workbook>

    function Snapshot(): State
      reads this
    {
      State(nextId, callbacks, workbooks)
    }

    constructor ()
      ensures Snapshot() == Run([])
    {
      nextId, callbacks, workbooks := 0, map[], map[];
    }

    /** `JsCallbackRegistry::insert`. */
    method InsertCallback(f: Function) returns (id: nat)
      requires nextId < U64_SIZE
      modifies this`nextId, this`callbacks
      ensures nextId < U64_SIZE
      ensures id == nextId == FreshId(old(nextId)) && callbacks == old(callbacks)[id := f]
    {
      nextId := if nextId + 1 == U64_SIZE then 0 else nextId + 1;
      if nextId < 1 {
        nextId := 1;
      }
      id := nextId;
      callbacks := callbacks[id := f];
    }

    method RegisterFunction(w: WorkbookId, name: string, f: Function, valid: bool) returns (r: Result<(), CallError>)
      requires nextId < U64_SIZE
      modifies this
      ensures (Snapshot(), r) == Register(old(Snapshot()), w, name, f, valid)
    {
      if !(w in workbooks && workbooks[w].handles > 0) {
        return Err(NoHandle);
      }
      var canonical := Canonical(name);
      if canonical == "" {
        return Err(EmptyName);
      }
      var id := InsertCallback(f);
      if !valid || canonical in workbooks[w].handlers {
        callbacks := callbacks - {id};
        return Err(EngineError);
      }
      var wb := workbooks[w];
      workbooks := workbooks[w := wb.(handlers := wb.handlers[canonical := id])];
      wb := workbooks[w];
      workbooks := workbooks[w := wb.(names := wb.names[canonical := id])];
      assert workbooks == old(workbooks)[w := wb.(names := wb.names[canonical := id])];
      if canonical in wb.names {
        callbacks := callbacks - {wb.names[canonical]};
      } else {
        RemoveNothing(callbacks);
      }
      return Ok(());
    }

    method UnregisterFunction(w: WorkbookId, name: string) returns (r: Result<(), CallError>)
      modifies this
      ensures (Snapshot(), r) == Unregister(old(Snapshot()), w, name)
    {
      if !(w in workbooks && workbooks[w].handles > 0) {
        return Err(NoHandle);
      }
      var canonical := Canonical(name);
      if canonical == "" {
        return Err(EmptyName);
      }
      var wb := workbooks[w];
      if canonical !in wb.handlers {
        return Err(EngineError);
      }
      workbooks := workbooks[w := wb.(handlers := wb.handlers - {canonical}, names := wb.names - {canonical})];
      if canonical in wb.names {
        callbacks := callbacks - {wb.names[canonical]};
      } else {
        RemoveNothing(callbacks);
      }
      return Ok(());
    }

    method CloneHandle(w: WorkbookId)
      modifies this
      ensures Snapshot() == Clone(old(Snapshot()), w)
    {
      if w in workbooks && workbooks[w].handles > 0 {
        workbooks := workbooks[w := workbooks[w].(handles := workbooks[w].handles + 1)];
      }
    }

    /** `Drop for Workbook`: only the last handle frees the callbacks, one id after the other. */
    method DropHandle(w: WorkbookId)
      modifies this
      ensures Snapshot() == Drop(old(Snapshot()), w)
    {
      if !(w in workbooks && workbooks[w].handles > 0) {
        return;
      }
      var wb := workbooks[w];
      workbooks := workbooks[w := wb.(handles := wb.handles - 1)];
      if wb.handles != 1 {
        return;
      }
      var ids := wb.names.Values;
      assert callbacks == old(callbacks) - (wb.names.Values - ids);
      while ids != {}
        invariant ids <= wb.names.Values && nextId == old(nextId)
        invariant workbooks == old(workbooks)[w := wb.(handles := 0)]
        invariant callbacks == old(callbacks) - (wb.names.Values - ids)
        decreases |ids|
      {
        var id :| id in ids;
        callbacks := callbacks - {id};
        ids := ids - {id};
        assert wb.names.Values - ids == wb.names.Values - (ids + {id}) + {id};
      }
      workbooks := workbooks[w := workbooks[w].(names := map[])];
      assert wb.names.Values - {} == wb.names.Values;
    }
  }
}
