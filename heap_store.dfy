/** The heap of heap.c as an object whose fields are updated in place: the
    arena of live objects, heap_head's list (as a sequence of handles) and
    the allocator's next handle.  Each method is proved to do what the
    matching function of module Heap says. */
module HeapStore {
  import opened Results
  import opened Share
  import opened Heap

  class ManagedHeap {
    var objects: map<Handle, HeapObject>
    var list: seq<Handle>
    var nextHandle: nat

    ghost function Model(): HeapState
      reads this
    {
      HeapState(objects, list, nextHandle)
    }

    ghost predicate Valid()
      reads this
    {
      Heap.Valid(Model())
    }

    /** heap_head starts out NULL. */
    constructor ()
      ensures Valid() && objects == map[] && list == []
    {
      objects, list, nextHandle := map[], [], 0;
    }

    /** addHeapEntry: the entry goes in front of the old head. */
    method AddHeapEntry(h: Handle)
      modifies this
      ensures list == [h] + old(list)
      ensures objects == old(objects) && nextHandle == old(nextHandle)
    {
      list := [h] + list;
    }

    method Allocate(body: ObjectBody) returns (h: Handle)
      modifies this
      ensures (Model(), h) == Heap.Allocate(old(Model()), body)
    {
      h := nextHandle;
      objects := objects[h := HeapObject(body, false)];
      nextHandle := nextHandle + 1;
      AddHeapEntry(h);
    }

    method AllocString(src: string, isLiteral: bool) returns (h: Handle)
      modifies this
      ensures (Model(), h) == Heap.AllocString(old(Model()), src, isLiteral)
    {
      h := Allocate(StringBody(src, isLiteral));
    }

    method CatString(str1: string, str2: string) returns (h: Handle)
      modifies this
      ensures (Model(), h) == Heap.CatString(old(Model()), str1, str2)
    {
      h := Allocate(StringBody(str1 + str2, false));
    }

    method AllocArray(elements: seq<Value>) returns (h: Handle)
      modifies this
      ensures (Model(), h) == Heap.AllocArray(old(Model()), elements)
    {
      h := Allocate(ArrayBody(elements));
    }

    /** deleteHeapEntry: unlink the entry, freeing nothing. */
    method DeleteHeapEntry(h: Handle) returns (r: Result<(), HeapError>)
      requires list == [] || h in list
      modifies this
      ensures objects == old(objects) && nextHandle == old(nextHandle)
      ensures r.Ok? ==> Unlink(old(list), h) == Ok(list)
      ensures r.Err? ==> Unlink(old(list), h) == Err(r.error) && list == old(list)
    {
      if list == [] {
        return Err(DeleteFromEmptyList);
      }
      var i := IndexOf(list, h);
      list := list[..i] + list[i + 1..];
      r := Ok(());
    }

    /** array_mark: mark the array, then each string element, and recurse
      into each array element. */
    method ArrayMark(h: Handle)
      requires Ordered(BodiesOf(objects)) && h in objects && objects[h].body.ArrayBody?
      modifies this
      ensures objects == MarkArray(old(objects), h)
      ensures list == old(list) && nextHandle == old(nextHandle)
      decreases h
    {
      ghost var b := BodiesOf(objects);
      objects := objects[h := objects[h].(marked := true)];
      var elems := objects[h].body.elements;
      assert BodiesOf(objects) == b;
      assert ElementsBelow(b, elems, h);
      for i := 0 to |elems|
        invariant BodiesOf(objects) == b && list == old(list) && nextHandle == old(nextHandle)
        invariant forall k | k in objects ::
          objects[k].marked == (old(objects)[k].marked || k == h || k in ReachAll(b, elems[..i], h))
      {
        assert elems[..i + 1][..i] == elems[..i];
        var v := elems[i];
        if v.ObjectValue? {
          var o := v.handle;
          if objects[o].body.StringBody? {
            objects := objects[o := objects[o].(marked := true)];
            assert BodiesOf(objects) == b;
          } else {
            ArrayMark(o);
            assert BodiesOf(objects) == b;
          }
        }
      }
      assert elems[..|elems|] == elems;
    }

    /** gc_mark: clear every mark along the list, then mark through stack
      slots 0 .. stackTop-1. */
    method GcMark(stack: seq<Value>, stackTop: nat)
      requires Valid() && stackTop <= |stack| && AllLive(BodiesOf(objects), stack[..stackTop])
      modifies this
      ensures Valid()
      ensures Model() == Mark(old(Model()), stack[..stackTop])
    {
      ClearMarks();
      MarkRoots(stack, stackTop);
      assert objects == Mark(old(Model()), stack[..stackTop]).objects;
      MarkResult(old(Model()), stack[..stackTop]);
    }

    /** The first loop of gc_mark: walk the list from heap_head and clear
      each mark. */
    method ClearMarks()
      requires Valid()
      modifies this
      ensures BodiesOf(objects) == old(BodiesOf(objects))
      ensures list == old(list) && nextHandle == old(nextHandle)
      ensures forall k | k in objects :: !objects[k].marked
    {
      ghost var b := BodiesOf(objects);
      for i := 0 to |list|
        invariant BodiesOf(objects) == b && list == old(list) && nextHandle == old(nextHandle)
        invariant forall k | k in objects :: objects[k].marked == (old(objects)[k].marked && k !in list[..i])
      {
        assert list[..i + 1] == list[..i] + [list[i]];
        objects := objects[list[i] := objects[list[i]].(marked := false)];
        assert BodiesOf(objects) == b;
      }
      assert list[..|list|] == list;
    }

    /** The second loop of gc_mark: a string on the stack is marked, an
      array goes through array_mark. */
    method MarkRoots(stack: seq<Value>, stackTop: nat)
      requires Ordered(BodiesOf(objects)) && stackTop <= |stack| && AllLive(BodiesOf(objects), stack[..stackTop])
      requires forall k | k in objects :: !objects[k].marked
      modifies this
      ensures BodiesOf(objects) == old(BodiesOf(objects))
      ensures list == old(list) && nextHandle == old(nextHandle)
      ensures forall k | k in objects :: objects[k].marked == (k in RootsReach(BodiesOf(objects), stack[..stackTop]))
    {
      ghost var b := BodiesOf(objects);
      for i := 0 to stackTop
        invariant BodiesOf(objects) == b && list == old(list) && nextHandle == old(nextHandle)
        invariant forall k | k in objects :: objects[k].marked == (k in RootsReach(b, stack[..i]))
      {
        assert stack[..i + 1][..i] == stack[..i];
        var v := stack[i];
        if v.ObjectValue? {
          var o := v.handle;
          if objects[o].body.StringBody? {
            objects := objects[o := objects[o].(marked := true)];
            assert BodiesOf(objects) == b;
          } else {
            ArrayMark(o);
            assert BodiesOf(objects) == b;
          }
        }
      }
    }

    /** gc_sweep as intended: walk the list, unlink and free each unmarked
      object. */
    method GcSweep()
      requires NoDuplicates(list) && Linked(list, objects)
      modifies this
      ensures Model() == Sweep(old(Model()))
    {
      var l0 := list;
      ghost var o0 := objects;
      assert l0[..0] == [] && l0[0..] == l0;
      assert old(Model()) == HeapState(o0, l0, nextHandle);
      for k := 0 to |l0|
        invariant list == Survivors(l0[..k], o0) + l0[k..]
        invariant objects == Pruned(o0, l0[..k])
        invariant nextHandle == old(nextHandle)
      {
        SweepStep(l0, o0, k);
        var h := l0[k];
        if !objects[h].marked {
          FreeEntry(h);
        }
      }
      SweepDone(l0, o0, list, objects, nextHandle);
    }

    /** The body of gc_sweep's loop for an unmarked entry: unlink it from
      the list, then free it. */
    method FreeEntry(h: Handle)
      requires h in list
      modifies this
      ensures Unlink(old(list), h) == Ok(list)
      ensures objects == old(objects) - {h} && nextHandle == old(nextHandle)
    {
      var r := DeleteHeapEntry(h);
      objects := objects - {h};
    }

    /** startGC: mark, then sweep. */
    method StartGC(stack: seq<Value>, stackTop: nat)
      requires Valid() && stackTop <= |stack| && AllLive(BodiesOf(objects), stack[..stackTop])
      modifies this
      ensures Valid()
      ensures Model() == Heap.StartGC(old(Model()), stack, stackTop)
    {
      MarkResult(Model(), stack[..stackTop]);
      GcMark(stack, stackTop);
      SweepResult(Model());
      GcSweep();
    }
  }

  /** The list links exactly the objects of the arena. */
  ghost predicate Linked(list: seq<Handle>, objs: map<Handle, HeapObject>) {
    forall h :: h in list <==> h in objs
  }

  /** The objects left once the sweep has passed the prefix: those of the
      prefix that are marked, and every object not yet passed. */
  ghost function Pruned(o: map<Handle, HeapObject>, prefix: seq<Handle>): map<Handle, HeapObject> {
    map x | x in o && (x in prefix ==> o[x].marked) :: o[x]
  }

  /** One step of the sweep over entry k of the old list: keeping it, or
      unlinking and freeing it, gives the state for the prefix one longer. */
  lemma {:induction false} SweepStep(l0: seq<Handle>, o0: map<Handle, HeapObject>, k: nat)
    requires NoDuplicates(l0) && Linked(l0, o0) && k < |l0|
    ensures var s := Survivors(l0[..k], o0); var list := s + l0[k..];
      && l0[k] in Pruned(o0, l0[..k]) && Pruned(o0, l0[..k])[l0[k]] == o0[l0[k]]
      && (o0[l0[k]].marked ==>
            && list == Survivors(l0[..k + 1], o0) + l0[k + 1..]
            && Pruned(o0, l0[..k + 1]) == Pruned(o0, l0[..k]))
      && (!o0[l0[k]].marked ==>
            && l0[k] in list
            && Unlink(list, l0[k]) == Ok(Survivors(l0[..k + 1], o0) + l0[k + 1..])
            && Pruned(o0, l0[..k + 1]) == Pruned(o0, l0[..k]) - {l0[k]})
  {
    SurvivorsGrow(l0, o0, k);
    PositionOfNext(l0, o0, k);
    PrunedGrow(l0, o0, k);
    SplitAt(Survivors(l0[..k], o0), l0, k);
  }

  /** After the last entry the state is the swept heap. */
  lemma {:induction false} SweepDone(l0: seq<Handle>, o0: map<Handle, HeapObject>, list: seq<Handle>,
                  objects: map<Handle, HeapObject>, nextHandle: nat)
    requires Linked(l0, o0)
    requires list == Survivors(l0[..|l0|], o0) + l0[|l0|..] && objects == Pruned(o0, l0[..|l0|])
    ensures HeapState(objects, list, nextHandle) == Sweep(HeapState(o0, l0, nextHandle))
  {
    assert l0[..|l0|] == l0 && l0[|l0|..] == [];
    assert list == Survivors(l0, o0);
    PrunedAll(l0, o0);
  }

  lemma {:induction false} SurvivorsGrow(l0: seq<Handle>, o0: map<Handle, HeapObject>, k: nat)
    requires (forall h :: h in l0 ==> h in o0) && k < |l0|
    ensures Survivors(l0[..k + 1], o0) == Survivors(l0[..k], o0) + (if o0[l0[k]].marked then [l0[k]] else [])
  {
    assert l0[..k + 1] == l0[..k] + [l0[k]];
    SurvivorsAppend(l0[..k], [l0[k]], o0);
    assert [l0[k]][1..] == [];
  }

  lemma {:induction false} PositionOfNext(l0: seq<Handle>, o0: map<Handle, HeapObject>, k: nat)
    requires NoDuplicates(l0) && (forall h :: h in l0 ==> h in o0) && k < |l0|
    ensures var s := Survivors(l0[..k], o0); var list := s + l0[k..];
      && IndexOf(list, l0[k]) == |s|
      && Unlink(list, l0[k]) == Ok(s + l0[k + 1..])
  {
    assert NoDuplicates(l0[..k]);
    SurvivorsMembers(l0[..k], o0);
    var s := Survivors(l0[..k], o0);
    var list := s + l0[k..];
    assert l0[k] !in s;
    assert list[|s|] == l0[k];
    IndexOfFirst(list, l0[k], |s|);
    assert list[..|s|] == s;
    assert list[|s| + 1..] == l0[k + 1..];
  }

  lemma {:induction false} IndexOfFirst(list: seq<Handle>, h: Handle, i: nat)
    requires i < |list| && list[i] == h && h !in list[..i]
    ensures IndexOf(list, h) == i
  {
  }

  lemma {:induction false} PrunedGrow(l0: seq<Handle>, o0: map<Handle, HeapObject>, k: nat)
    requires NoDuplicates(l0) && (forall h :: h in l0 ==> h in o0) && k < |l0|
    ensures l0[k] in Pruned(o0, l0[..k]) && Pruned(o0, l0[..k])[l0[k]] == o0[l0[k]]
    ensures Pruned(o0, l0[..k + 1]) == (if o0[l0[k]].marked then Pruned(o0, l0[..k]) else Pruned(o0, l0[..k]) - {l0[k]})
  {
    assert l0[..k + 1] == l0[..k] + [l0[k]];
    assert forall x :: x in l0[..k + 1] <==> x in l0[..k] || x == l0[k];
    assert l0[k] !in l0[..k];
  }

  lemma {:induction false} SplitAt(s: seq<Handle>, l0: seq<Handle>, k: nat)
    requires k < |l0|
    ensures s + l0[k..] == (s + [l0[k]]) + l0[k + 1..]
    ensures |s| < |s + l0[k..]| && (s + l0[k..])[|s|] == l0[k]
    ensures s + l0[k + 1..] == (s + []) + l0[k + 1..]
  {
    assert l0[k..] == [l0[k]] + l0[k + 1..];
  }

  /** Once the whole list is passed, exactly the marked objects are left. */
  lemma {:induction false} PrunedAll(l0: seq<Handle>, o0: map<Handle, HeapObject>)
    requires Linked(l0, o0)
    ensures Pruned(o0, l0) == map h | h in o0 && o0[h].marked :: o0[h]
  {
  }
}
