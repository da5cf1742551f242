/** The served-model store of local_store.go: generations, resource versions, and the locked
    read-modify-write of the file. */
module ServedModel {

  /** All specification fields as one value: the store only compares them. */
  datatype Spec = Spec(fields: seq<string>)

  datatype Status = Status(observed: int, fields: seq<string>)

  const NO_STATUS := Status(0, [])

  datatype Record = Record(name: string, namespace: string, generation: int, spec: Spec, status: Status)

  /** The content of the file; a missing or empty file reads as EMPTY. */
  datatype Content = Content(version: int, items: map<string, Record>)

  const EMPTY := Content(0, map[])

  datatype Error = NotFound | StaleGeneration | NamespaceMismatch | Io

  datatype Result<T> = Ok(value: T) | Err(error: Error)

  // ---- the operations as functions of the file's content ----

  datatype Op =
    | Upsert(name: string, namespace: string, spec: Spec)
    | Update(name: string, status: Status)
    | Delete(name: string)
    | Reset

  function Upserted(c: Content, name: string, namespace: string, spec: Spec): Content {
    if name !in c.items || c.items[name].name == "" then
      Content(c.version + 1, c.items[name := Record(name, namespace, 1, spec, NO_STATUS)])
    else
      var record := c.items[name];
      if record.spec == spec && record.namespace == namespace then c
      else Content(c.version + 1, c.items[name := record.(namespace := namespace, generation := record.generation + 1,
                                                          spec := spec, status := NO_STATUS)])
  }

  function Updated(c: Content, name: string, status: Status): Result<Content> {
    if name !in c.items then Err(NotFound)
    else
      var record := c.items[name];
      if status.observed != record.generation then Err(StaleGeneration)
      else if record.status == status then Ok(c)
      else Ok(Content(c.version + 1, c.items[name := record.(status := status)]))
  }

  function Outcome(c: Content, op: Op): Result<Content> {
    match op
    case Upsert(name, namespace, spec) => Ok(Upserted(c, name, namespace, spec))
    case Update(name, status) => Updated(c, name, status)
    case Delete(name) => if name in c.items then Ok(Content(c.version + 1, c.items - {name})) else Err(NotFound)
    case Reset => Ok(Content(c.version + 1, map[]))
  }

  /** What an operation leaves on disk: a failed one, whatever failed, leaves it unchanged. */
  function Next(c: Content, op: Op, faults: Faults): Content {
    match Outcome(c, op)
    case Ok(after) => if faults.None() then after else c
    case Err(_) => c
  }

  /** Failures of the lock or the read, and of the write or the rename. */
  datatype Faults = Faults(lock: bool, read: bool, write: bool) {
    predicate None() {
      !lock && !read && !write
    }
  }

  // ---- the store ----

  class Store {
    var file: Content

    constructor ()
      ensures file == EMPTY
    {
      file := EMPTY;
    }

    method UpsertSpec(name: string, namespace: string, spec: Spec, faults: Faults) returns (r: Result<()>)
      modifies this
      ensures file == Next(old(file), Upsert(name, namespace, spec), faults)
      ensures r.Ok? <==> !faults.lock && !faults.read && !faults.write
      ensures r.Err? ==> r.error == Io && file == old(file)
      ensures r.Ok? && (name !in old(file).items || old(file).items[name].name == "") ==>
                && file.version == old(file).version + 1
                && file.items == old(file).items[name := Record(name, namespace, 1, spec, Status(0, []))]
      ensures r.Ok? && name in old(file).items && old(file).items[name].name != "" ==>
                var record := old(file).items[name];
                if record.spec == spec && record.namespace == namespace then file == old(file)
                else
                  && file.version == old(file).version + 1
                  && file.items == old(file).items[name := Record(record.name, namespace, record.generation + 1, spec,
                                                                  Status(0, []))]
    {
      if faults.lock || faults.read {
        return Err(Io);
      }
      var db := file;
      var known := name in db.items && db.items[name].name != "";
      if !known {
        db := Content(db.version + 1, db.items[name := Record(name, namespace, 1, spec, NO_STATUS)]);
      } else if db.items[name].spec != spec || db.items[name].namespace != namespace {
        var record := db.items[name];
        record := record.(namespace := namespace, generation := record.generation + 1, spec := spec,
                          status := NO_STATUS);
        db := Content(db.version + 1, db.items[name := record]);
      }
      r := Write(db, faults.write);
    }

    method UpdateStatus(name: string, status: Status, faults: Faults) returns (r: Result<()>)
      modifies this
      ensures file == Next(old(file), Update(name, status), faults)
      ensures r.Ok? <==> !faults.lock && !faults.read && !faults.write && name in old(file).items &&
                         old(file).items[name].generation == status.observed
      ensures r.Ok? ==> file.items == old(file).items[name := old(file).items[name].(status := status)]
      ensures r.Ok? ==> file.version == old(file).version + if old(file).items[name].status == status then 0 else 1
      ensures r.Err? ==> file == old(file)
      ensures r == Err(NotFound) <==> !faults.lock && !faults.read && name !in old(file).items
      ensures r == Err(StaleGeneration) <==> !faults.lock && !faults.read && name in old(file).items &&
                                             old(file).items[name].generation != status.observed
    {
      if faults.lock || faults.read {
        return Err(Io);
      }
      if name !in file.items {
        return Err(NotFound);
      }
      var record := file.items[name];
      if status.observed != record.generation {
        return Err(StaleGeneration);
      }
      var db := file;
      if record.status != status {
        db := Content(db.version + 1, db.items[name := record.(status := status)]);
      }
      r := Write(db, faults.write);
    }

    method DeleteRecord(name: string, faults: Faults) returns (r: Result<()>)
      modifies this
      ensures file == Next(old(file), Delete(name), faults)
      ensures r.Ok? <==> !faults.lock && !faults.read && !faults.write && name in old(file).items
      ensures r.Ok? ==> file == Content(old(file).version + 1, old(file).items - {name})
      ensures r.Err? ==> file == old(file)
      ensures r == Err(NotFound) <==> !faults.lock && !faults.read && name !in old(file).items
    {
      if faults.lock || faults.read {
        return Err(Io);
      }
      if name !in file.items {
        return Err(NotFound);
      }
      r := Write(Content(file.version + 1, file.items - {name}), faults.write);
    }

    method ResetAll(faults: Faults) returns (r: Result<()>)
      modifies this
      ensures file == Next(old(file), Reset, faults)
      ensures r.Ok? <==> !faults.lock && !faults.read && !faults.write
      ensures file == if r.Ok? then Content(old(file).version + 1, map[]) else old(file)
    {
      if faults.lock || faults.read {
        return Err(Io);
      }
      r := Write(Content(file.version + 1, map[]), faults.write);
    }

    /** The new content goes to a temporary file that is renamed over the store's. */
    method Write(db: Content, fails: bool) returns (r: Result<()>)
      modifies this
      ensures r.Ok? <==> !fails
      ensures r.Err? ==> r.error == Io
      ensures file == if fails then old(file) else db
    {
      if fails {
        return Err(Io);
      }
      file := db;
      r := Ok(());
    }
  }

  // ---- runs ----

  datatype Step = Step(op: Op, faults: Faults)

  function After(c: Content, steps: seq<Step>): Content {
    if steps == [] then c
    else Next(After(c, steps[..|steps| - 1]), steps[|steps| - 1].op, steps[|steps| - 1].faults)
  }

  /** Every record is stored under its name, has a generation, and a status of that generation. */
  ghost predicate Consistent(c: Content) {
    forall name {:trigger c.items[name]} :: name in c.items ==>
      var r := c.items[name];
      r.name == name && r.generation >= 1 && (r.status == NO_STATUS || r.status.observed == r.generation)
  }

  lemma {:induction false} RunConsistent(c: Content, steps: seq<Step>)
    requires Consistent(c)
    ensures Consistent(After(c, steps))
  {
    if steps != [] {
      RunConsistent(c, steps[..|steps| - 1]);
    }
  }

  /** Every reachable store is consistent. */
  lemma {:induction false} ReachableConsistent(steps: seq<Step>)
    ensures Consistent(After(EMPTY, steps))
  {
    RunConsistent(EMPTY, steps);
  }

  /** The version never goes back, and while it stands still the items do too: a watcher that
      compares versions misses no change. */
  lemma {:induction false} VersionDeterminesItems(c: Content, steps: seq<Step>)
    ensures c.version <= After(c, steps).version
    ensures c.version == After(c, steps).version ==> After(c, steps).items == c.items
  {
    if steps != [] {
      VersionDeterminesItems(c, steps[..|steps| - 1]);
    }
  }

  /** The same for any two moments of one run. */
  lemma EqualVersionsEqualItems(steps: seq<Step>, i: nat, j: nat)
    requires i <= |steps| && j <= |steps|
    requires After(EMPTY, steps[..i]).version == After(EMPTY, steps[..j]).version
    ensures After(EMPTY, steps[..i]).items == After(EMPTY, steps[..j]).items
  {
    var (lo, hi) := if i <= j then (i, j) else (j, i);
    Split(EMPTY, steps[..lo], steps[lo..hi]);
    assert steps[..hi] == steps[..lo] + steps[lo..hi];
    VersionDeterminesItems(After(EMPTY, steps[..lo]), steps[lo..hi]);
  }

  lemma {:induction false} Split(c: Content, a: seq<Step>, b: seq<Step>)
    ensures After(c, a + b) == After(After(c, a), b)
  {
    if b == [] {
      assert a + b == a;
    } else {
      Split(c, a, b[..|b| - 1]);
      assert (a + b)[..|a + b| - 1] == a + b[..|b| - 1];
    }
  }

  // ---- generations ----

  /** No step deletes the record. */
  predicate Keeps(steps: seq<Step>, name: string) {
    forall i :: 0 <= i < |steps| ==> !steps[i].op.Reset? && steps[i].op != Delete(name)
  }

  function Label(c: Content, name: string): (Spec, string)
    requires name in c.items
  {
    (c.items[name].spec, c.items[name].namespace)
  }

  /** The number of steps that changed the record's specification or namespace. */
  function Changes(c: Content, steps: seq<Step>, name: string): nat {
    if steps == [] then 0
    else
      var (before, after) := (After(c, steps[..|steps| - 1]), After(c, steps));
      Changes(c, steps[..|steps| - 1], name)
      + if name in before.items && name in after.items && Label(before, name) != Label(after, name) then 1 else 0
  }

  /** Within one incarnation the generation counts the changes, so equal generations mean equal
      specifications. */
  lemma {:induction false} GenerationCountsChanges(c: Content, steps: seq<Step>, name: string)
    requires Consistent(c) && name != "" && name in c.items && Keeps(steps, name)
    ensures name in After(c, steps).items && Consistent(After(c, steps))
    ensures After(c, steps).items[name].generation == c.items[name].generation + Changes(c, steps, name)
    ensures After(c, steps).items[name].generation == c.items[name].generation ==>
              Label(After(c, steps), name) == Label(c, name)
  {
    if steps != [] {
      var init, last := steps[..|steps| - 1], steps[|steps| - 1];
      GenerationCountsChanges(c, init, name);
    }
  }

  /** A status worked out for an older specification of the incarnation is always refused. */
  lemma StaleStatusRefused(c: Content, steps: seq<Step>, name: string, status: Status)
    requires Consistent(c) && name != "" && name in c.items && Keeps(steps, name)
    requires status.observed == c.items[name].generation
    requires name in After(c, steps).items && Label(After(c, steps), name) != Label(c, name)
    ensures Updated(After(c, steps), name, status) == Err(StaleGeneration)
  {
    GenerationCountsChanges(c, steps, name);
  }

  // ---- what a record holds ----

  /** The step goes through and gives the record a status, changes its specification or namespace, or
      removes it. */
  ghost predicate Touches(c: Content, step: Step, name: string)
    requires name in c.items
  {
    && !step.faults.lock && !step.faults.read && !step.faults.write
    && var r := c.items[name];
    match step.op
    case Upsert(n, namespace, spec) => n == name && (r.name == "" || r.spec != spec || r.namespace != namespace)
    case Update(n, status) => n == name && status.observed == r.generation
    case Delete(n) => n == name
    case Reset => true
  }

  ghost predicate Untouched(c: Content, steps: seq<Step>, name: string) {
    forall i: nat {:trigger steps[i]} :: i < |steps| && name in After(c, steps[..i]).items ==>
      !Touches(After(c, steps[..i]), steps[i], name)
  }

  /** A record stays as it is, field by field, through every step that does not touch it. */
  lemma {:induction false} RecordStays(c: Content, steps: seq<Step>, name: string)
    requires name in c.items && Untouched(c, steps, name)
    ensures name in After(c, steps).items && After(c, steps).items[name] == c.items[name]
  {
    if steps != [] {
      var n := |steps| - 1;
      forall i: nat | i < n
        ensures steps[..n][i] == steps[i] && steps[..n][..i] == steps[..i]
      {
      }
      RecordStays(c, steps[..n], name);
      assert !Touches(After(c, steps[..n]), steps[n], name);
    }
  }

  /** An accepted status stays, with the record it was given to, until the next accepted status, change of
      specification or namespace, deletion or reset. */
  lemma AcceptedStatusStays(c: Content, name: string, status: Status, steps: seq<Step>)
    requires name in c.items && c.items[name].generation == status.observed
    requires Untouched(After(c, [Step(Update(name, status), Faults(false, false, false))]), steps, name)
    ensures var t := After(c, [Step(Update(name, status), Faults(false, false, false))] + steps);
            name in t.items && t.items[name] == c.items[name].(status := status)
  {
    var first := Step(Update(name, status), Faults(false, false, false));
    Snoc(c, [], first);
    assert [] + [first] == [first];
    RecordStays(After(c, [first]), steps, name);
    Split(c, [first], steps);
  }

  lemma Snoc(c: Content, steps: seq<Step>, step: Step)
    ensures After(c, steps + [step]) == Next(After(c, steps), step.op, step.faults)
  {
    assert (steps + [step])[..|steps|] == steps;
  }

  /** Across incarnations it may be accepted, since generations start at 1 again. For a record that is
      deleted, made anew and then kept, exactly: a status is accepted if and only if it observed the
      generation that the changes since the new start have reached, whichever incarnation it is from. */
  lemma RecreatedAcceptsIff(c: Content, gone: seq<Step>, name: string, namespace: string, spec: Spec, steps: seq<Step>,
                            status: Status)
    requires Consistent(c) && name != "" && name !in After(c, gone).items && Keeps(steps, name)
    ensures var d := Upserted(After(c, gone), name, namespace, spec);
            Updated(After(d, steps), name, status).Ok? <==> status.observed == 1 + Changes(d, steps, name)
  {
    RunConsistent(c, gone);
    var d := Upserted(After(c, gone), name, namespace, spec);
    assert Consistent(d);
    GenerationCountsChanges(d, steps, name);
  }

  /** The status of a deleted record of generation g is taken for its successor's after exactly g - 1
      changes of it. */
  lemma RecreatedAcceptsStaleStatus(c: Content, name: string, namespace: string, spec: Spec, steps: seq<Step>,
                                    fields: seq<string>)
    requires Consistent(c) && name != "" && name in c.items && Keeps(steps, name)
    ensures var ok := Faults(false, false, false);
            var d := After(c, [Step(Delete(name), ok)] + [Step(Upsert(name, namespace, spec), ok)]);
            && name in d.items && d.items[name].spec == spec
            && (Updated(After(d, steps), name, Status(c.items[name].generation, fields)).Ok?
                <==> Changes(d, steps, name) == c.items[name].generation - 1)
  {
    var ok := Faults(false, false, false);
    Snoc(c, [], Step(Delete(name), ok));
    assert [] + [Step(Delete(name), ok)] == [Step(Delete(name), ok)];
    Snoc(c, [Step(Delete(name), ok)], Step(Upsert(name, namespace, spec), ok));
    RecreatedAcceptsIff(c, [Step(Delete(name), ok)], name, namespace, spec, steps,
                        Status(c.items[name].generation, fields));
  }

  /** A record with an empty name never counts: every upsert of it starts at generation 1 again. */
  lemma EmptyNameNeverCounts(c: Content, namespace: string, spec: Spec)
    requires Consistent(c)
    ensures Upserted(c, "", namespace, spec).items[""].generation == 1
  {
  }
}
