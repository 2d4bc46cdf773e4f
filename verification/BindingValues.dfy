/** What the bindings of a composite resolve to: src/shyam/composite/engine.py. */
module BindingValues {
  import opened Canonical
  import opened Workflow
  import opened Composite

  // ---- One binding ----

  /** The dictionary has this entry. */
  predicate HasEntry(es: Entries, key: string, value: Value) {
    es.Entry? && ((es.key == key && es.value == value) || HasEntry(es.rest, key, value))
  }

  lemma {:induction false} LookupIsEntry(es: Entries, key: string)
    ensures HasKey(es, key) ==> HasEntry(es, key, Lookup(es, key))
    ensures forall v :: HasEntry(es, key, v) ==> HasKey(es, key)
    ensures DistinctKeys(es) ==> forall v :: HasEntry(es, key, v) ==> v == Lookup(es, key)
  {
    if es.Entry? {
      LookupIsEntry(es.rest, key);
    }
  }

  function Sources(b: Binding, inputs: map<string, Value>, outputs: map<string, Value>): map<string, Value> {
    match b.source
    case FromInput => inputs
    case FromStep => outputs
  }

  /** The binding stands for this value: the one under its source id, or that of the entry with its key in it. */
  ghost predicate Gives(b: Binding, inputs: map<string, Value>, outputs: map<string, Value>, v: Value) {
    var sources := Sources(b, inputs, outputs);
    b.sourceId in sources &&
    var held := sources[b.sourceId];
    match b.sourceKey
    case None => v == held
    case Some(key) => held.Dict? && HasEntry(held.entries, key, v)
  }

  /** The binding stands for no value, for this reason. */
  ghost predicate Lacks(b: Binding, inputs: map<string, Value>, outputs: map<string, Value>, error: BindingError) {
    var sources := Sources(b, inputs, outputs);
    match error
    case MissingInput => b.source == FromInput && b.sourceId !in inputs
    case MissingStep => b.source == FromStep && b.sourceId !in outputs
    case NotADict => b.sourceId in sources && b.sourceKey.Some? && !sources[b.sourceId].Dict?
    case MissingKey =>
      && b.sourceId in sources && b.sourceKey.Some? && sources[b.sourceId].Dict?
      && forall v :: !HasEntry(sources[b.sourceId].entries, b.sourceKey.value, v)
  }

  lemma {:induction false} ResolveGives(f: Field, inputs: map<string, Value>, outputs: map<string, Value>)
    ensures
      match Resolve(f, inputs, outputs)
      case Resolved(value) => Gives(f.binding, inputs, outputs, value)
      case Unresolved(field, error) => field == f.name && Lacks(f.binding, inputs, outputs, error)
  {
    var b, sources := f.binding, Sources(f.binding, inputs, outputs);
    if b.sourceId in sources && b.sourceKey.Some? && sources[b.sourceId].Dict? {
      LookupIsEntry(sources[b.sourceId].entries, b.sourceKey.value);
    }
  }

  /** A binding gives a value or lacks one, for one reason; and in a dictionary with distinct keys it gives only one. */
  lemma GivesOrLacks(b: Binding, inputs: map<string, Value>, outputs: map<string, Value>)
    ensures HasValue(b, inputs, outputs) <==> !exists error :: Lacks(b, inputs, outputs, error)
    ensures forall e, e' :: Lacks(b, inputs, outputs, e) && Lacks(b, inputs, outputs, e') ==> e == e'
    ensures
      (forall id | id in Sources(b, inputs, outputs) :: WellFormed(Sources(b, inputs, outputs)[id])) ==>
        forall v, v' :: Gives(b, inputs, outputs, v) && Gives(b, inputs, outputs, v') ==> v == v'
  {
    var f := Field("", b);
    ResolveGives(f, inputs, outputs);
    var sources := Sources(b, inputs, outputs);
    if b.sourceId in sources && b.sourceKey.Some? && sources[b.sourceId].Dict? {
      LookupIsEntry(sources[b.sourceId].entries, b.sourceKey.value);
      if WellFormed(sources[b.sourceId]) {
        WellFormedDistinct(sources[b.sourceId].entries);
      }
    }
  }

  lemma {:induction false} WellFormedDistinct(es: Entries)
    requires EntriesWellFormed(es)
    ensures DistinctKeys(es)
  {
    if es.Entry? {
      WellFormedDistinct(es.rest);
    }
  }

  // ---- All bindings of a step ----

  /** Field `i` is the last one with this name. */
  ghost predicate LastField(fields: seq<Field>, name: string, i: nat) {
    i < |fields| && fields[i].name == name && forall j | i < j < |fields| :: fields[j].name != name
  }

  /** The values are those of the fields' bindings: one under each name, from the last field that has it. */
  ghost predicate FieldsGive(fields: seq<Field>, inputs: map<string, Value>, outputs: map<string, Value>,
                             values: map<string, Value>) {
    && (forall f :: f in fields ==> f.name in values)
    && forall name | name in values ::
         exists i: nat :: LastField(fields, name, i) && Gives(fields[i].binding, inputs, outputs, values[name])
  }

  /** Field `i` lacks a value for this reason, and the fields before it do not. */
  ghost predicate FirstLack(fields: seq<Field>, inputs: map<string, Value>, outputs: map<string, Value>, i: nat,
                            field: string, error: BindingError) {
    && i < |fields| && fields[i].name == field && Lacks(fields[i].binding, inputs, outputs, error)
    && forall j | 0 <= j < i :: HasValue(fields[j].binding, inputs, outputs)
  }

  ghost predicate HasValue(b: Binding, inputs: map<string, Value>, outputs: map<string, Value>) {
    exists v :: Gives(b, inputs, outputs, v)
  }

  ghost predicate FieldLacks(fields: seq<Field>, inputs: map<string, Value>, outputs: map<string, Value>,
                             field: string, error: BindingError) {
    exists i: nat :: FirstLack(fields, inputs, outputs, i, field, error)
  }

  lemma FieldsGiveThen(fields: seq<Field>, last: Field, inputs: map<string, Value>, outputs: map<string, Value>,
                       values: map<string, Value>, value: Value)
    requires FieldsGive(fields, inputs, outputs, values) && Gives(last.binding, inputs, outputs, value)
    ensures FieldsGive(fields + [last], inputs, outputs, values[last.name := value])
  {
    var more, after := fields + [last], values[last.name := value];
    forall name | name in after
      ensures exists i: nat :: LastField(more, name, i) && Gives(more[i].binding, inputs, outputs, after[name])
    {
      if name == last.name {
        assert LastField(more, name, |fields|);
      } else {
        var i: nat :| LastField(fields, name, i) && Gives(fields[i].binding, inputs, outputs, values[name]);
        assert LastField(more, name, i) && more[i] == fields[i];
      }
    }
  }

  lemma {:induction false} ResolvedGive(fields: seq<Field>, inputs: map<string, Value>, outputs: map<string, Value>)
    requires ResolveAll(fields, inputs, outputs).Resolved?
    ensures forall j | 0 <= j < |fields| :: HasValue(fields[j].binding, inputs, outputs)
  {
    if fields != [] {
      var before, last := fields[..|fields| - 1], fields[|fields| - 1];
      assert fields == before + [last];
      ResolvedGive(before, inputs, outputs);
      ResolveGives(last, inputs, outputs);
      assert HasValue(last.binding, inputs, outputs);
    }
  }

  lemma LacksLater(fields: seq<Field>, last: Field, inputs: map<string, Value>, outputs: map<string, Value>,
                   field: string, error: BindingError)
    requires FieldLacks(fields, inputs, outputs, field, error)
    ensures FieldLacks(fields + [last], inputs, outputs, field, error)
  {
    var i: nat :| FirstLack(fields, inputs, outputs, i, field, error);
    assert FirstLack(fields + [last], inputs, outputs, i, field, error);
  }

  lemma LacksNow(fields: seq<Field>, last: Field, inputs: map<string, Value>, outputs: map<string, Value>,
                 error: BindingError)
    requires ResolveAll(fields, inputs, outputs).Resolved? && Lacks(last.binding, inputs, outputs, error)
    ensures FieldLacks(fields + [last], inputs, outputs, last.name, error)
  {
    ResolvedGive(fields, inputs, outputs);
    assert FirstLack(fields + [last], inputs, outputs, |fields|, last.name, error);
  }

  /** Resolved fields have the values of their bindings; otherwise the first binding without one is to blame. */
  lemma {:induction false} ResolveAllGives(
      fields: seq<Field>, inputs: map<string, Value>, outputs: map<string, Value>)
    ensures
      match ResolveAll(fields, inputs, outputs)
      case Resolved(values) => FieldsGive(fields, inputs, outputs, values)
      case Unresolved(field, error) => FieldLacks(fields, inputs, outputs, field, error)
  {
    if fields != [] {
      var before, last := fields[..|fields| - 1], fields[|fields| - 1];
      assert fields == before + [last];
      ResolveAllGives(before, inputs, outputs);
      ResolveGives(last, inputs, outputs);
      match ResolveAll(before, inputs, outputs)
      case Unresolved(field, error) => LacksLater(before, last, inputs, outputs, field, error);
      case Resolved(values) =>
        match Resolve(last, inputs, outputs)
        case Resolved(value) => FieldsGiveThen(before, last, inputs, outputs, values, value);
        case Unresolved(_, error) => LacksNow(before, last, inputs, outputs, error);
    }
  }

  // ---- The outputs of the steps so far ----

  ghost predicate LastResult(rs: seq<StepResult>, id: string, i: nat) {
    i < |rs| && rs[i].stepId == id && forall j | i < j < |rs| :: rs[j].stepId != id
  }

  /** The map holds the output of every step that has a result, under its id. */
  ghost predicate HoldsOutputs(rs: seq<StepResult>, outputs: map<string, Value>) {
    && (forall r :: r in rs ==> r.stepId in outputs)
    && forall id | id in outputs :: exists i: nat :: LastResult(rs, id, i) && outputs[id] == rs[i].output
  }

  lemma HoldsThen(rs: seq<StepResult>, outputs: map<string, Value>, r: StepResult)
    requires HoldsOutputs(rs, outputs)
    ensures HoldsOutputs(rs + [r], outputs[r.stepId := r.output])
  {
    var more, after := rs + [r], outputs[r.stepId := r.output];
    forall id | id in after
      ensures exists i: nat :: LastResult(more, id, i) && after[id] == more[i].output
    {
      if id == r.stepId {
        assert LastResult(more, id, |rs|);
      } else {
        var i: nat :| LastResult(rs, id, i) && outputs[id] == rs[i].output;
        assert LastResult(more, id, i) && more[i] == rs[i];
      }
    }
  }
}
