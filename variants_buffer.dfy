/** Per-member FIFO queues of variants, used while walking the three callsets of a trio. */
module VariantsBuffers {
  import opened Wrappers
  import opened DenovoUtil

  /** The two coordinates of a variant record that the buffer reads. */
  datatype Variant = Variant(position: int, end: int)

  /** IllegalStateException, with its message. */
  datatype BufferError = IllegalState(message: string)

  class VariantsBuffer {
    /** The queue of each trio member, front first. */
    var bufferMap: map<TrioIndividual, seq<Variant>>

    /** Every member has a queue, as the constructor's loop guarantees. */
    ghost predicate Valid()
      reads this
    {
      forall p: TrioIndividual :: p in bufferMap
    }

    /** One empty queue for each of DAD, MOM and CHILD. */
    constructor ()
      ensures Valid()
      ensures forall p: TrioIndividual :: bufferMap[p] == []
    {
      bufferMap := map[];
      new;
      for i := 0 to |TRIO|
        invariant forall p: TrioIndividual :: p in bufferMap <==> p in TRIO[..i]
        invariant forall p | p in bufferMap :: bufferMap[p] == []
      {
        var person := TRIO[i];
        bufferMap := bufferMap[person := []];
      }
      assert TRIO[..|TRIO|] == TRIO;
      forall p: TrioIndividual ensures p in bufferMap {
        TrioListsEveryMember(p);
      }
    }

    /** push: append at the back of that member's queue; the other queues are untouched. */
    method Push(person: TrioIndividual, variant: Variant)
      requires Valid()
      modifies this
      ensures Valid()
      ensures bufferMap[person] == old(bufferMap[person]) + [variant]
      ensures forall p | p != person :: bufferMap[p] == old(bufferMap[p])
      ensures GetEndPosition(person) == variant.end
      ensures GetStartPosition(person) ==
        if old(bufferMap[person]) == [] then variant.position else old(GetStartPosition(person))
    {
      bufferMap := bufferMap[person := bufferMap[person] + [variant]];
    }

    /**
     * pop: remove the front of that member's queue; on an empty queue nothing changes and
     * IllegalStateException is raised.
     */
    method Pop(person: TrioIndividual) returns (error: Option<BufferError>)
      requires Valid()
      modifies this
      ensures Valid()
      ensures error.Some? <==> old(bufferMap[person]) == []
      ensures error.Some? ==>
        bufferMap == old(bufferMap) && error.value == IllegalState("Trying to pop from empty queue")
      ensures error.None? ==>
        bufferMap[person] == old(bufferMap[person])[1..] &&
        |bufferMap[person]| == |old(bufferMap[person])| - 1
      ensures forall p | p != person :: bufferMap[p] == old(bufferMap[p])
    {
      if bufferMap[person] == [] {
        return Some(IllegalState("Trying to pop from empty queue"));
      }
      bufferMap := bufferMap[person := bufferMap[person][1..]];
      return None;
    }

    /** getStartPosition: 0 for an empty queue, otherwise the position of its front variant. */
    function GetStartPosition(person: TrioIndividual): (pos: int)
      reads this
      requires Valid()
      ensures bufferMap[person] == [] ==> pos == 0
      ensures bufferMap[person] != [] ==> pos == bufferMap[person][0].position
    {
      if bufferMap[person] == [] then 0 else bufferMap[person][0].position
    }

    /** getEndPosition: 0 for an empty queue, otherwise the end of its back variant. */
    function GetEndPosition(person: TrioIndividual): (pos: int)
      reads this
      requires Valid()
      ensures bufferMap[person] == [] ==> pos == 0
      ensures bufferMap[person] != [] ==> pos == bufferMap[person][|bufferMap[person]| - 1].end
    {
      var q := bufferMap[person];
      if q == [] then 0 else q[|q| - 1].end
    }
  }

  /** Pushing onto an empty queue and popping again leaves every queue as it was. */
  method PushThenPop(buffer: VariantsBuffer, person: TrioIndividual, v: Variant)
    requires buffer.Valid() && buffer.bufferMap[person] == []
    modifies buffer
    ensures buffer.Valid() && buffer.bufferMap == old(buffer.bufferMap)
  {
    buffer.Push(person, v);
    var error := buffer.Pop(person);
    assert error.None?;
  }

  /** The scenarios of VariantsBufferTest, replayed against the contracts. */
  method BufferScenarios()
  {
    var vbuf := new VariantsBuffer();
    vbuf.Push(DAD, Variant(1, 100001));
    assert |vbuf.bufferMap[DAD]| == 1 && vbuf.bufferMap[DAD][0] == Variant(1, 100001);
    var error := vbuf.Pop(DAD);
    assert error.None? && vbuf.bufferMap[DAD] == [];
    error := vbuf.Pop(DAD);
    assert error.Some?;

    vbuf.Push(DAD, Variant(1, 10001));
    vbuf.Push(DAD, Variant(10002, 10003));
    assert vbuf.GetStartPosition(MOM) == 0 && vbuf.GetStartPosition(DAD) == 1;
    assert vbuf.GetEndPosition(MOM) == 0 && vbuf.GetEndPosition(DAD) == 10003;
  }
}
