/**
  The agent service: the repository of agent rows, the tombstones of deleted built-ins, and the shared
  catalog that is rebuilt after every write.  Any single call of a store may fail, before or after it
  took effect; operations run one at a time.
 */
module AgentService {
  import opened Wrappers
  import opened RoleRouter

  datatype ServiceError = NotFound | Conflict(name: string) | Invalid(why: InvalidAgent) | Db

  /** Where an operation is struck: at which of its store calls, and whether that call took effect first. */
  datatype Fault = NoFault | FailsAt(call: nat, applied: bool)

  datatype Store = Store(rows: map<string, AgentDefinition>, tombstones: set<string>, catalog: AgentCatalog)

  type Outcome = Result<AgentDefinition, ServiceError>

  predicate Fails(fault: Fault, call: nat) {
    fault.FailsAt? && fault.call == call
  }

  /** A write that is the given call of the operation: done, unless the call fails without effect. */
  predicate Lands(fault: Fault, call: nat) {
    Fails(fault, call) ==> fault.applied
  }

  function Upsert(s: Store, def: AgentDefinition): Store {
    s.(rows := s.rows[def.name := def])
  }

  function Remove(s: Store, name: string): Store {
    s.(rows := s.rows - {name})
  }

  function Entomb(s: Store, name: string): Store {
    s.(tombstones := s.tombstones + {name})
  }

  function Exhume(s: Store, name: string): Store {
    s.(tombstones := s.tombstones - {name})
  }

  /** `rebuild_catalog`, when the listing succeeds. */
  function Rebuild(s: Store): Store {
    s.(catalog := s.rows)
  }

  function FinishWrite(s: Store, fault: Fault, call: nat, def: AgentDefinition): (Store, Outcome) {
    if Fails(fault, call) then (s, Err(Db)) else (Rebuild(s), Ok(def))
  }

  function Created(s: Store, agent: AgentDefinition, fault: Fault): (Store, Outcome) {
    var def := agent.(origin := Custom);
    if Validate(def).Err? then (s, Err(Invalid(Validate(def).error)))
    else if Fails(fault, 1) then (s, Err(Db))
    else if def.name in s.rows then (s, Err(Conflict(def.name)))
    else
      var t := if Lands(fault, 2) then Upsert(s, def) else s;
      if Fails(fault, 2) then (t, Err(Db)) else FinishWrite(t, fault, 3, def)
  }

  function Updated(s: Store, name: string, agent: AgentDefinition, fault: Fault): (Store, Outcome) {
    if Fails(fault, 1) then (s, Err(Db))
    else if name !in s.rows then (s, Err(NotFound))
    else
      var def := agent.(name := name, origin := s.rows[name].origin);
      if Validate(def).Err? then (s, Err(Invalid(Validate(def).error)))
      else
        var t := if Lands(fault, 2) then Upsert(s, def) else s;
        if Fails(fault, 2) then (t, Err(Db)) else FinishWrite(t, fault, 3, def)
  }

  function Deleted(s: Store, name: string, fault: Fault): (Store, Outcome) {
    if Fails(fault, 1) then (s, Err(Db))
    else if name !in s.rows then (s, Err(NotFound))
    else
      var gone := s.rows[name];
      var t := if Lands(fault, 2) then Remove(s, name) else s;
      if Fails(fault, 2) then (t, Err(Db))
      else if gone.origin.Custom? then FinishWrite(t, fault, 3, gone)
      else
        var u := if Lands(fault, 3) then Entomb(t, name) else t;
        if Fails(fault, 3) then (u, Err(Db)) else FinishWrite(u, fault, 4, gone)
  }

  function FindBuiltin(defs: seq<AgentDefinition>, name: string): Option<AgentDefinition> {
    if defs == [] then None else if defs[0].name == name then Some(defs[0]) else FindBuiltin(defs[1..], name)
  }

  function Shipped(name: string): Option<AgentDefinition> {
    FindBuiltin(Builtins(), name)
  }

  function RestoreTo(s: Store, def: AgentDefinition, fault: Fault): (Store, Outcome) {
    var t := if Lands(fault, 1) then Exhume(s, def.name) else s;
    if Fails(fault, 1) then (t, Err(Db))
    else
      var u := if Lands(fault, 2) then Upsert(t, def) else t;
      if Fails(fault, 2) then (u, Err(Db)) else FinishWrite(u, fault, 3, def)
  }

  function Restored(s: Store, name: string, fault: Fault): (Store, Outcome) {
    match Shipped(name)
    case None => (s, Err(NotFound))
    case Some(def) => RestoreTo(s, def, fault)
  }

  // ---- sequences of operations ------------------------------------------------------------------------

  datatype Op =
    | OpCreate(agent: AgentDefinition)
    | OpUpdate(name: string, agent: AgentDefinition)
    | OpDelete(name: string)
    | OpRestore(name: string)

  function Perform(s: Store, op: Op, fault: Fault): (Store, Outcome) {
    match op
    case OpCreate(agent) => Created(s, agent, fault)
    case OpUpdate(name, agent) => Updated(s, name, agent, fault)
    case OpDelete(name) => Deleted(s, name, fault)
    case OpRestore(name) => Restored(s, name, fault)
  }

  function PerformAll(s: Store, ops: seq<(Op, Fault)>): Store
    decreases |ops|
  {
    if ops == [] then s
    else
      var (op, fault) := ops[|ops| - 1];
      Perform(PerformAll(s, ops[..|ops| - 1]), op, fault).0
  }

  predicate Indexed(rows: map<string, AgentDefinition>) {
    forall name :: name in rows ==> rows[name].name == name && Validate(rows[name]).Ok?
  }

  /** Rows and catalog entries sit under their own names and validate, and no built-in row is tombstoned. */
  predicate StoreOk(s: Store) {
    && Indexed(s.rows) && Indexed(s.catalog)
    && forall name :: name in s.rows && s.rows[name].origin.Builtin? ==> name !in s.tombstones
  }

  lemma {:induction false} FoundBuiltin(defs: seq<AgentDefinition>, name: string)
    ensures match FindBuiltin(defs, name)
            case Some(def) => def in defs && def.name == name
            case None => forall d :: d in defs ==> d.name != name
  {
    if defs != [] {
      FoundBuiltin(defs[1..], name);
    }
  }

  lemma ShippedIsBuiltin(name: string)
    ensures Shipped(name).Some? <==> exists d :: d in Builtins() && d.name == name
    ensures Shipped(name).Some? ==>
              Shipped(name).value in Builtins() && Shipped(name).value.name == name && Validate(Shipped(name).value).Ok?
  {
    FoundBuiltin(Builtins(), name);
    if Shipped(name).Some? {
      BuiltinsValidate(Shipped(name).value);
    }
  }

  lemma UpsertKeepsOk(s: Store, def: AgentDefinition)
    requires StoreOk(s) && Validate(def).Ok? && (def.origin.Builtin? ==> def.name !in s.tombstones)
    ensures StoreOk(Upsert(s, def)) && StoreOk(Rebuild(Upsert(s, def)))
  {
  }

  lemma RemoveKeepsOk(s: Store, name: string)
    requires StoreOk(s)
    ensures StoreOk(Remove(s, name)) && StoreOk(Rebuild(Remove(s, name)))
    ensures StoreOk(Entomb(Remove(s, name), name)) && StoreOk(Rebuild(Entomb(Remove(s, name), name)))
  {
  }

  lemma RebuildKeepsOk(s: Store, fault: Fault, call: nat, def: AgentDefinition)
    requires StoreOk(s) && StoreOk(Rebuild(s))
    ensures StoreOk(FinishWrite(s, fault, call, def).0)
  {
  }

  lemma RestoreKeepsOk(s: Store, def: AgentDefinition, fault: Fault)
    requires StoreOk(s) && Validate(def).Ok?
    ensures StoreOk(RestoreTo(s, def, fault).0)
  {
    var t := Exhume(s, def.name);
    assert StoreOk(t);
    UpsertKeepsOk(t, def);
    RebuildKeepsOk(Upsert(t, def), fault, 3, def);
  }

  lemma CreatedKeepsOk(s: Store, agent: AgentDefinition, fault: Fault)
    requires StoreOk(s)
    ensures StoreOk(Created(s, agent, fault).0)
  {
    var def := agent.(origin := Custom);
    if Validate(def).Ok? {
      UpsertKeepsOk(s, def);
    }
  }

  lemma UpdatedKeepsOk(s: Store, name: string, agent: AgentDefinition, fault: Fault)
    requires StoreOk(s)
    ensures StoreOk(Updated(s, name, agent, fault).0)
  {
    if name in s.rows {
      var def := agent.(name := name, origin := s.rows[name].origin);
      if Validate(def).Ok? {
        UpsertKeepsOk(s, def);
        RebuildKeepsOk(s, fault, 3, def);
        RebuildKeepsOk(Upsert(s, def), fault, 3, def);
      }
    }
  }

  lemma DeletedKeepsOk(s: Store, name: string, fault: Fault)
    requires StoreOk(s)
    ensures StoreOk(Deleted(s, name, fault).0)
  {
    RemoveKeepsOk(s, name);
    if name in s.rows {
      var t := Remove(s, name);
      RebuildKeepsOk(t, fault, 3, s.rows[name]);
      RebuildKeepsOk(Entomb(t, name), fault, 4, s.rows[name]);
    }
  }

  lemma PerformKeepsOk(s: Store, op: Op, fault: Fault)
    requires StoreOk(s)
    ensures StoreOk(Perform(s, op, fault).0)
  {
    match op
    case OpCreate(agent) => CreatedKeepsOk(s, agent, fault);
    case OpUpdate(name, agent) => UpdatedKeepsOk(s, name, agent, fault);
    case OpDelete(name) => DeletedKeepsOk(s, name, fault);
    case OpRestore(name) =>
      ShippedIsBuiltin(name);
      if Shipped(name).Some? {
        RestoreKeepsOk(s, Shipped(name).value, fault);
      }
  }

  /** Over every sequence of operations, each struck anywhere or nowhere, the store stays as `StoreOk` says. */
  lemma {:induction false} AlwaysOk(s: Store, ops: seq<(Op, Fault)>)
    requires StoreOk(s)
    ensures StoreOk(PerformAll(s, ops))
    decreases |ops|
  {
    if ops != [] {
      AlwaysOk(s, ops[..|ops| - 1]);
      PerformKeepsOk(PerformAll(s, ops[..|ops| - 1]), ops[|ops| - 1].0, ops[|ops| - 1].1);
    }
  }

  lemma PerformAndCatalog(s: Store, op: Op, fault: Fault)
    ensures var (t, r) := Perform(s, op, fault);
            if r.Ok? then t.catalog == t.rows else t.catalog == s.catalog
  {
  }

  /** The rows as the last successful operation left them. */
  function LastGoodRows(s: Store, ops: seq<(Op, Fault)>): map<string, AgentDefinition>
    decreases |ops|
  {
    if ops == [] then s.catalog
    else
      var init, (op, fault) := ops[..|ops| - 1], ops[|ops| - 1];
      var (t, r) := Perform(PerformAll(s, init), op, fault);
      if r.Ok? then t.rows else LastGoodRows(s, init)
  }

  /** At all times the catalog is the repository as the last successful operation left it. */
  lemma {:induction false} CatalogFollowsRows(s: Store, ops: seq<(Op, Fault)>)
    ensures PerformAll(s, ops).catalog == LastGoodRows(s, ops)
    decreases |ops|
  {
    if ops != [] {
      CatalogFollowsRows(s, ops[..|ops| - 1]);
      PerformAndCatalog(PerformAll(s, ops[..|ops| - 1]), ops[|ops| - 1].0, ops[|ops| - 1].1);
    }
  }

  /** Whatever happened before, the router never finds a catalog entry without a runner. */
  lemma CatalogAlwaysResolves(s: Store, ops: seq<(Op, Fault)>, name: string)
    requires StoreOk(s) && name in PerformAll(s, ops).catalog
    ensures Resolve(PerformAll(s, ops).catalog, RunPolicy(None), name).Ok?
  {
    AlwaysOk(s, ops);
    ResolvesExactly(PerformAll(s, ops).catalog, RunPolicy(None), name);
  }

  /** What each operation answers, when no store call fails: exactly one outcome per state of the rows. */
  lemma AnswersWithoutFault(s: Store, op: Op)
    ensures var r := Perform(s, op, NoFault).1;
            match op
            case OpCreate(agent) =>
              && (r.Ok? <==> Validate(agent).Ok? && agent.name !in s.rows)
              && (r.Err? && r.error.Conflict? <==> Validate(agent).Ok? && agent.name in s.rows)
              && (r.Ok? ==> r.value == agent.(origin := Custom))
            case OpUpdate(name, agent) =>
              && (r == Err(NotFound) <==> name !in s.rows)
              && (r.Ok? <==> name in s.rows && Validate(agent.(name := name)).Ok?)
              && (r.Ok? ==> r.value.name == name && r.value.origin == s.rows[name].origin)
            case OpDelete(name) => (r.Ok? <==> name in s.rows) && (r.Err? ==> r.error.NotFound?)
            case OpRestore(name) => (r.Ok? <==> exists d :: d in Builtins() && d.name == name) && (r.Err? ==> r.error.NotFound?)
  {
    match op
    case OpCreate(agent) => assert Validate(agent.(origin := Custom)) == Validate(agent);
    case OpUpdate(name, agent) =>
      if name in s.rows {
        assert Validate(agent.(name := name, origin := s.rows[name].origin)) == Validate(agent.(name := name));
      }
    case OpDelete(_) =>
    case OpRestore(name) => ShippedIsBuiltin(name);
  }

  // ---- what each operation writes -------------------------------------------------------------------------

  /** Struck at none of its store calls. */
  predicate Unstruck(fault: Fault, last: nat) {
    fault == NoFault || fault.call == 0 || fault.call > last
  }

  /** A new agent is stored as a custom one under its name; after an error it may be stored all the same. */
  lemma CreateWrites(s: Store, agent: AgentDefinition, fault: Fault)
    ensures var (t, r) := Perform(s, OpCreate(agent), fault);
            var free := Validate(agent).Ok? && agent.name !in s.rows;
            var def := agent.(origin := Custom);
            && (r.Ok? <==> free && Unstruck(fault, 3))
            && (r.Ok? ==> r.value == def && t == Store(s.rows[agent.name := def], s.tombstones, s.rows[agent.name := def]))
            && (r.Err? && free && (fault == FailsAt(2, true) || fault.call == 3) ==>
                  t == Store(s.rows[agent.name := def], s.tombstones, s.catalog))
            && (r.Err? && !(free && (fault == FailsAt(2, true) || (fault.FailsAt? && fault.call == 3))) ==> t == s)
  {
    assert Validate(agent.(origin := Custom)) == Validate(agent);
  }

  /** The path's name and the stored origin win over the given ones. */
  lemma UpdateWrites(s: Store, name: string, agent: AgentDefinition, fault: Fault)
    ensures var (t, r) := Perform(s, OpUpdate(name, agent), fault);
            name !in s.rows ==> t == s && r == if fault.FailsAt? && fault.call == 1 then Err(Db) else Err(NotFound)
    ensures name in s.rows ==>
              var (t, r) := Perform(s, OpUpdate(name, agent), fault);
              var def := agent.(name := name, origin := s.rows[name].origin);
              var valid := Validate(agent.(name := name)).Ok?;
              && (r.Ok? <==> valid && Unstruck(fault, 3))
              && (r.Ok? ==> r.value == def && t == Store(s.rows[name := def], s.tombstones, s.rows[name := def]))
              && (r.Err? && valid && (fault == FailsAt(2, true) || fault.call == 3) ==>
                    t == Store(s.rows[name := def], s.tombstones, s.catalog))
              && (r.Err? && !(valid && (fault == FailsAt(2, true) || (fault.FailsAt? && fault.call == 3))) ==> t == s)
  {
    if name in s.rows {
      assert Validate(agent.(name := name, origin := s.rows[name].origin)) == Validate(agent.(name := name));
    }
  }

  /** A custom agent's row is removed and nothing is tombstoned. */
  lemma DeleteCustomWrites(s: Store, name: string, fault: Fault)
    requires name in s.rows && s.rows[name].origin.Custom?
    ensures var (t, r) := Perform(s, OpDelete(name), fault);
            && (r.Ok? <==> Unstruck(fault, 3))
            && (r.Ok? ==> t == Store(s.rows - {name}, s.tombstones, s.rows - {name}))
            && (r.Err? ==> t == if fault == FailsAt(2, true) || fault.call == 3 then Store(s.rows - {name}, s.tombstones, s.catalog) else s)
  {
  }

  /** A built-in's row is removed and its name tombstoned, in this order. */
  lemma DeleteBuiltinWrites(s: Store, name: string, fault: Fault)
    requires name in s.rows && s.rows[name].origin.Builtin?
    ensures var (t, r) := Perform(s, OpDelete(name), fault);
            && (r.Ok? <==> Unstruck(fault, 4))
            && (r.Ok? ==> t == Store(s.rows - {name}, s.tombstones + {name}, s.rows - {name}))
            && (r.Err? ==>
                  t == if fault.call == 1 || fault == FailsAt(2, false) then s
                       else Store(s.rows - {name}, if fault == FailsAt(3, true) || fault.call == 4 then s.tombstones + {name} else s.tombstones, s.catalog))
  {
  }

  /** What restoring `def` leaves. */
  predicate RestoreLeaves(s: Store, def: AgentDefinition, fault: Fault, t: Store, r: Outcome) {
    && (r.Ok? <==> Unstruck(fault, 3))
    && (r.Ok? ==>
          r.value == def && t == Store(s.rows[def.name := def], s.tombstones - {def.name}, s.rows[def.name := def]))
    && (r.Err? && fault == FailsAt(1, false) ==> t == s)
    && (r.Err? && fault != FailsAt(1, false) ==>
          t == Store(if fault == FailsAt(2, true) || (fault.FailsAt? && fault.call == 3) then s.rows[def.name := def] else s.rows,
                     s.tombstones - {def.name}, s.catalog))
  }

  lemma RestoreToWrites(s: Store, def: AgentDefinition, fault: Fault)
    ensures RestoreLeaves(s, def, fault, RestoreTo(s, def, fault).0, RestoreTo(s, def, fault).1)
  {
  }

  /** A shipped agent's tombstone is cleared and its shipped row stored, in this order. */
  lemma RestoreWrites(s: Store, def: AgentDefinition, fault: Fault)
    requires def in Builtins()
    ensures var (t, r) := Perform(s, OpRestore(def.name), fault); RestoreLeaves(s, def, fault, t, r)
  {
    NamesDiffer(def);
    RestoreToWrites(s, def, fault);
  }

  lemma NamesDiffer(def: AgentDefinition)
    requires def in Builtins()
    ensures Shipped(def.name) == Some(def)
  {
    FoundBuiltin(Builtins(), def.name);
    var i :| 0 <= i < |Builtins()| && Builtins()[i] == def;
    var j :| 0 <= j < |Builtins()| && Builtins()[j] == Shipped(def.name).value;
    ShippedAgents(i);
    ShippedAgents(j);
  }

  ghost predicate SameElsewhere(s: Store, t: Store, name: string) {
    forall other :: other != name ==>
      && (other in t.rows <==> other in s.rows)
      && (other in s.rows ==> t.rows[other] == s.rows[other])
      && (other in t.tombstones <==> other in s.tombstones)
  }

  lemma CreateStaysLocal(s: Store, agent: AgentDefinition, fault: Fault)
    ensures SameElsewhere(s, Created(s, agent, fault).0, agent.name)
  {
  }

  lemma UpdateStaysLocal(s: Store, name: string, agent: AgentDefinition, fault: Fault)
    ensures SameElsewhere(s, Updated(s, name, agent, fault).0, name)
  {
  }

  lemma DeleteStaysLocal(s: Store, name: string, fault: Fault)
    ensures SameElsewhere(s, Deleted(s, name, fault).0, name)
  {
  }

  lemma RestoreStaysLocal(s: Store, def: AgentDefinition, fault: Fault)
    ensures SameElsewhere(s, RestoreTo(s, def, fault).0, def.name)
  {
  }

  /** An operation touches no row and no tombstone but those of its own name, even when it fails half way. */
  lemma OthersUntouched(s: Store, op: Op, fault: Fault)
    ensures SameElsewhere(s, Perform(s, op, fault).0, if op.OpCreate? then op.agent.name else op.name)
  {
    match op
    case OpCreate(agent) => CreateStaysLocal(s, agent, fault);
    case OpUpdate(name, agent) => UpdateStaysLocal(s, name, agent, fault);
    case OpDelete(name) => DeleteStaysLocal(s, name, fault);
    case OpRestore(name) =>
      ShippedIsBuiltin(name);
      if Shipped(name).Some? {
        RestoreStaysLocal(s, Shipped(name).value, fault);
      }
  }

  /**
    "Removed and tombstoned" is missed exactly when the operation is struck between the two writes: by a removal that
    fails after its effect, or a record that fails without one. The caller is told of a failure, and asking again does
    not help: the row is gone, so the tombstone is never written.
   */
  lemma DeleteHalfDone(s: Store, name: string, fault: Fault)
    requires StoreOk(s) && name in s.rows && s.rows[name].origin.Builtin?
    ensures var (t, r) := Perform(s, OpDelete(name), fault);
            && (name !in t.rows && name !in t.tombstones <==> fault == FailsAt(2, true) || fault == FailsAt(3, false))
            && (name !in t.rows && name !in t.tombstones ==>
                  r == Err(Db) && Perform(t, OpDelete(name), NoFault) == (t, Err(NotFound)))
            && (r.Ok? ==> name !in t.rows && name in t.tombstones)
  {
  }

  lemma DeletedThenRestored(s: Store, name: string, def: AgentDefinition)
    requires name in s.rows && s.rows[name].origin.Builtin? && name !in s.tombstones && def.name == name
    ensures var deleted := Deleted(s, name, NoFault).0;
            var restored := RestoreTo(deleted, def, NoFault).0;
            && name !in deleted.rows && name in deleted.tombstones && name !in deleted.catalog
            && restored == Store(s.rows[name := def], s.tombstones, restored.rows)
  {
    var deleted := Deleted(s, name, NoFault).0;
    assert deleted == Rebuild(Entomb(Remove(s, name), name));
    assert RestoreTo(deleted, def, NoFault).0 == Rebuild(Upsert(Exhume(deleted, name), def));
    assert deleted.tombstones - {name} == s.tombstones;
    assert deleted.rows[name := def] == s.rows[name := def];
  }

  /** Deleting a built-in tombstones it; restoring it brings the shipped row back and clears the tombstone. */
  lemma RestoreUndoesDelete(s: Store, name: string)
    requires StoreOk(s) && name in s.rows && s.rows[name].origin.Builtin? && Shipped(name).Some?
    ensures var deleted := Perform(s, OpDelete(name), NoFault).0;
            var restored := Perform(deleted, OpRestore(name), NoFault).0;
            && name !in deleted.rows && name in deleted.tombstones && name !in deleted.catalog
            && restored == Store(s.rows[name := Shipped(name).value], s.tombstones, restored.rows)
  {
    ShippedIsBuiltin(name);
    DeletedThenRestored(s, name, Shipped(name).value);
  }

  // ---- the objects ---------------------------------------------------------------------------------------

  /** The catalog snapshot behind its lock. */
  class AgentCatalogProvider {
    var inner: AgentCatalog

    constructor (catalog: AgentCatalog)
      ensures inner == catalog
    {
      inner := catalog;
    }

    method Snapshot() returns (catalog: AgentCatalog)
      ensures catalog == inner
    {
      return inner;
    }

    method Replace(catalog: AgentCatalog)
      modifies this
      ensures inner == catalog
    {
      inner := catalog;
    }
  }

  predicate NamesMatch(rows: map<string, AgentDefinition>) {
    forall name :: name in rows ==> rows[name].name == name
  }

  /** The service over its stores; `fault` says which store call of the operation fails, if any. */
  class Service {
    var rows: map<string, AgentDefinition>
    var tombstones: set<string>
    const catalog: AgentCatalogProvider

    ghost function View(): Store
      reads this, catalog
    {
      Store(rows, tombstones, catalog.inner)
    }

    constructor (rows: map<string, AgentDefinition>, tombstones: set<string>, catalog: AgentCatalogProvider)
      ensures this.catalog == catalog && View() == Store(rows, tombstones, catalog.inner)
    {
      this.rows, this.tombstones, this.catalog := rows, tombstones, catalog;
    }

    /** The repository lists its rows in some order; the catalog built from the list is the rows themselves. */
    method List() returns (defs: seq<AgentDefinition>)
      requires NamesMatch(rows)
      ensures FromDefinitions(defs) == rows
    {
      defs := [];
      var pending := rows.Keys;
      while pending != {}
        invariant pending <= rows.Keys
        invariant FromDefinitions(defs) == map name | name in rows.Keys - pending :: rows[name]
        decreases pending
      {
        var name :| name in pending;
        ghost var before := defs;
        defs := defs + [rows[name]];
        assert defs[..|defs| - 1] == before;
        pending := pending - {name};
      }
    }

    method RebuildCatalog(fault: Fault, call: nat) returns (failed: bool)
      requires NamesMatch(rows)
      modifies catalog
      ensures failed == Fails(fault, call)
      ensures View() == if failed then old(View()) else Rebuild(old(View()))
    {
      if Fails(fault, call) {
        return true;
      }
      var defs := List();
      catalog.Replace(FromDefinitions(defs));
      return false;
    }

    method WriteRow(def: AgentDefinition, fault: Fault, call: nat) returns (failed: bool)
      modifies `rows
      ensures failed == Fails(fault, call)
      ensures View() == if Lands(fault, call) then Upsert(old(View()), def) else old(View())
    {
      if Lands(fault, call) {
        rows := rows[def.name := def];
      }
      return Fails(fault, call);
    }

    method Create(agent: AgentDefinition, fault: Fault) returns (r: Outcome)
      requires NamesMatch(rows)
      modifies this, catalog
      ensures NamesMatch(rows) && (View(), r) == Created(old(View()), agent, fault)
    {
      var def := agent.(origin := Custom);
      if Validate(def).Err? {
        return Err(Invalid(Validate(def).error));
      }
      if Fails(fault, 1) {
        return Err(Db);
      }
      if def.name in rows {
        return Err(Conflict(def.name));
      }
      var failed := WriteRow(def, fault, 2);
      if !failed {
        failed := RebuildCatalog(fault, 3);
      }
      return if failed then Err(Db) else Ok(def);
    }

    method Update(name: string, agent: AgentDefinition, fault: Fault) returns (r: Outcome)
      requires NamesMatch(rows)
      modifies this, catalog
      ensures NamesMatch(rows) && (View(), r) == Updated(old(View()), name, agent, fault)
    {
      if Fails(fault, 1) {
        return Err(Db);
      }
      if name !in rows {
        return Err(NotFound);
      }
      var def := agent.(name := name, origin := rows[name].origin);
      if Validate(def).Err? {
        return Err(Invalid(Validate(def).error));
      }
      var failed := WriteRow(def, fault, 2);
      if !failed {
        failed := RebuildCatalog(fault, 3);
      }
      return if failed then Err(Db) else Ok(def);
    }

    method Delete(name: string, fault: Fault) returns (r: Outcome)
      requires NamesMatch(rows)
      modifies this, catalog
      ensures NamesMatch(rows) && (View(), r) == Deleted(old(View()), name, fault)
    {
      if Fails(fault, 1) {
        return Err(Db);
      }
      if name !in rows {
        return Err(NotFound);
      }
      var gone := rows[name];
      if Lands(fault, 2) {
        rows := rows - {name};
      }
      if Fails(fault, 2) {
        return Err(Db);
      }
      var call := 3;
      if gone.origin.Builtin? {
        if Lands(fault, 3) {
          tombstones := tombstones + {name};
        }
        if Fails(fault, 3) {
          return Err(Db);
        }
        call := 4;
      }
      var failed := RebuildCatalog(fault, call);
      return if failed then Err(Db) else Ok(gone);
    }

    method RestoreDefault(name: string, fault: Fault) returns (r: Outcome)
      requires NamesMatch(rows)
      modifies this, catalog
      ensures NamesMatch(rows) && (View(), r) == Restored(old(View()), name, fault)
    {
      ShippedIsBuiltin(name);
      var found := Shipped(name);
      if found.None? {
        return Err(NotFound);
      }
      var def := found.value;
      if Lands(fault, 1) {
        tombstones := tombstones - {name};
      }
      if Fails(fault, 1) {
        return Err(Db);
      }
      var failed := WriteRow(def, fault, 2);
      if !failed {
        failed := RebuildCatalog(fault, 3);
      }
      return if failed then Err(Db) else Ok(def);
    }
  }
}
