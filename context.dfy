/** The per-function code-generation context: a name-to-label allocator over
    a shared string constant pool. */
module Context {
  import opened Base
  import Pool

  /** A label number handed out by the allocator (the `LabelIndex` wrapper of
      the code generator). */
  datatype LabelIndex = LabelIndex(index: uint32)

  /** The allocator's invariant: every stored label is below the counter and
      no two names share one. */
  predicate LabelsValid(labels: map<string, LabelIndex>, counter: nat) {
    (forall n :: n in labels ==> labels[n].index < counter) &&
    (forall a, b :: a in labels && b in labels && a != b ==> labels[a] != labels[b])
  }

  /** The allocator after `get_or_create_label(name)`: the labels, the counter,
      and the label returned. */
  datatype Allocation = Allocation(labels: map<string, LabelIndex>, counter: uint32, handed: LabelIndex)

  function LabelFor(labels: map<string, LabelIndex>, counter: uint32, name: string): Allocation
    requires name in labels || counter < U32_LIMIT - 1
  {
    if name in labels then Allocation(labels, counter, labels[name])
    else Allocation(labels[name := LabelIndex(counter)], counter + 1, LabelIndex(counter))
  }

  /** A known name keeps its label and allocates nothing; a new name gets the
      counter's value, stored under it, and the counter moves on. Either way
      the invariant is kept, so distinct names never share a label. */
  lemma LabelForSpec(labels: map<string, LabelIndex>, counter: uint32, name: string)
    requires LabelsValid(labels, counter)
    requires name in labels || counter < U32_LIMIT - 1
    ensures var a := LabelFor(labels, counter, name);
      LabelsValid(a.labels, a.counter) && name in a.labels && a.labels[name] == a.handed &&
      (name in labels ==> a.labels == labels && a.counter == counter) &&
      (name !in labels ==> a.handed == LabelIndex(counter) && a.counter == counter + 1 &&
                           a.labels.Keys == labels.Keys + {name})
  {
  }

  /** Asking twice for the same name returns the same label the second time
      and changes nothing. */
  lemma LabelForIdempotent(labels: map<string, LabelIndex>, counter: uint32, name: string)
    requires name in labels || counter < U32_LIMIT - 1
    ensures var a := LabelFor(labels, counter, name);
      LabelFor(a.labels, a.counter, name) == a
  {
  }

  /** Two distinct names asked for in turn get distinct labels. */
  lemma DistinctNamesDistinctLabels(labels: map<string, LabelIndex>, counter: uint32, x: string, y: string)
    requires LabelsValid(labels, counter) && x != y
    requires counter < U32_LIMIT - 2
    ensures var a := LabelFor(labels, counter, x);
      LabelFor(a.labels, a.counter, y).handed != a.handed
  {
    LabelForSpec(labels, counter, x);
  }

  /** The string table of the constant pool. */
  class ConstantPoolContext {
    var strings: seq<string>

    constructor ()
      ensures strings == []
    {
      strings := [];
    }

    /** `add_string`: the first equal entry's index, or the old length after
        appending; the index is truncated to `u32`. */
    method AddString(val: string) returns (index: nat)
      modifies this
      ensures strings == Pool.Intern(old(strings), val).pool
      ensures index == UsizeAsU32(Pool.Intern(old(strings), val).index)
    {
      var found := Pool.Position(strings, val);
      if found.Some? {
        index := UsizeAsU32(found.value);
      } else {
        index := UsizeAsU32(|strings|);
        strings := strings + [val];
      }
    }
  }

  class FunctionGenContext {
    const constPool: ConstantPoolContext
    var labelCounter: uint32
    var labels: map<string, LabelIndex>

    constructor (constPool: ConstantPoolContext)
      ensures this.constPool == constPool
      ensures labelCounter == 0 && labels == map[]
      ensures Valid()
    {
      this.constPool := constPool;
      labelCounter := 0;
      labels := map[];
    }

    predicate Valid()
      reads this
    {
      LabelsValid(labels, labelCounter)
    }

    /** `get_next_label`: the counter's value, then the counter moves on. */
    method GetNextLabel() returns (index: LabelIndex)
      requires labelCounter < U32_LIMIT - 1
      modifies this
      ensures index == LabelIndex(old(labelCounter))
      ensures labelCounter == old(labelCounter) + 1
      ensures labels == old(labels)
    {
      index := LabelIndex(labelCounter);
      labelCounter := labelCounter + 1;
    }

    method GetOrCreateLabel(name: string) returns (index: LabelIndex)
      requires Valid()
      requires name in labels || labelCounter < U32_LIMIT - 1
      modifies this
      ensures Valid()
      ensures Allocation(labels, labelCounter, index) == LabelFor(old(labels), old(labelCounter), name)
    {
      LabelForSpec(labels, labelCounter, name);
      if name !in labels {
        var next := GetNextLabel();
        labels := labels[name := next];
      }
      index := labels[name];
    }
  }
}
