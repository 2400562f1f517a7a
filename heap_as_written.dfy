/** deleteHeapEntry, array_sweep and gc_sweep as heap.c writes them, pointer
    walk and all, over the arena model: the list is the sequence of
    handles, freeing an object removes it from the live set, and touching a
    freed object or following a NULL link is a failure.  The collector the
    rest of the model uses is Heap.Sweep; the lemmas here exhibit where the
    code as written departs from it. */
module HeapAsWritten {
  import opened Results
  import opened Share
  import opened Heap

  /** deleteHeapEntry as written: both branches update entry->next->prev,
      which is NULL when the entry is the tail. */
  function DeleteAsWritten(list: seq<Handle>, h: Handle): (r: Result<seq<Handle>, HeapError>)
    requires list == [] || h in list
    ensures list == [] ==> r == Err(DeleteFromEmptyList)
  {
    if list == [] then Err(DeleteFromEmptyList)
    else
      var i := IndexOf(list, h);
      if i == |list| - 1 then Err(NullDereference)
      else Ok(list[..i] + list[i + 1..])
  }

  /** Away from the tail the code does what Unlink specifies; at the tail,
      even of a one-element list, it fails. */
  lemma {:induction false} DeleteAsWrittenAgrees(list: seq<Handle>, h: Handle)
    requires h in list
    ensures IndexOf(list, h) < |list| - 1 ==> DeleteAsWritten(list, h) == Unlink(list, h)
    ensures IndexOf(list, h) == |list| - 1 ==>
      DeleteAsWritten(list, h) == Err(NullDereference) && Unlink(list, h).Ok?
  {
  }

  /** Deleting the oldest object, which sits at the tail, fails. */
  lemma {:induction false} DeleteTailFails()
    ensures DeleteAsWritten([1, 0], 0) == Err(NullDereference)
    ensures Unlink([1, 0], 0) == Ok([1])
    ensures DeleteAsWritten([0], 0) == Err(NullDereference)
  {
    assert IndexOf([1, 0], 0) == 1 by { assert [1, 0][1..] == [0]; }
    assert [1, 0][..1] + [1, 0][2..] == [1];
  }

  // ---------------------------------------------------------------------
  // array_sweep as written

  /** array_sweep on the array h: for each object element, read its mark (a
      freed element is a use after free); an unmarked string is freed, an
      unmarked array is swept recursively; then h itself is freed if
      unmarked.  Returns the live set afterwards.  The elements it frees
      stay linked in the heap list. */
  function ArraySweepAsWritten(b: Bodies, marks: set<Handle>, live: set<Handle>, h: Handle)
    : (r: Result<set<Handle>, HeapError>)
    requires Ordered(b) && h in b && b[h].ArrayBody?
    ensures r.Ok? ==> r.value <= live && (h in r.value <==> h in marks)
    decreases h, 1, 0
  {
    var live' :- ElementsSweep(b, marks, live, b[h].elements, 0, h);
    if h !in live' then Err(UseAfterFree)
    else if h in marks then Ok(live')
    else Ok(live' - {h})
  }

  function ElementsSweep(b: Bodies, marks: set<Handle>, live: set<Handle>, elems: seq<Value>, i: nat, bound: Handle)
    : (r: Result<set<Handle>, HeapError>)
    requires Ordered(b) && ElementsBelow(b, elems, bound) && i <= |elems|
    ensures r.Ok? ==> r.value <= live
    decreases bound, 0, |elems| - i
  {
    if i == |elems| then Ok(live)
    else if !elems[i].ObjectValue? then ElementsSweep(b, marks, live, elems, i + 1, bound)
    else
      var o := elems[i].handle;
      if o !in live then Err(UseAfterFree)
      else if o in marks then ElementsSweep(b, marks, live, elems, i + 1, bound)
      else if b[o].StringBody? then ElementsSweep(b, marks, live - {o}, elems, i + 1, bound)
      else
        var live' :- ArraySweepAsWritten(b, marks, live, o);
        ElementsSweep(b, marks, live', elems, i + 1, bound)
  }

  /** array_sweep never frees a marked object, frees the array itself iff
      it is unmarked, and frees nothing outside what the array reaches. */
  lemma {:induction false} ArraySweepFreesOnlyUnmarked(b: Bodies, marks: set<Handle>, live: set<Handle>, h: Handle)
    requires Ordered(b) && h in b && b[h].ArrayBody?
    requires ArraySweepAsWritten(b, marks, live, h).Ok?
    ensures var live' := ArraySweepAsWritten(b, marks, live, h).value;
      && (forall x | x in live && x !in live' :: x !in marks && x in Reach(b, h))
      && (h in live' <==> h in marks)
    decreases h, 1, 0
  {
    ElementsFreesOnlyUnmarked(b, marks, live, b[h].elements, 0, h);
  }

  lemma {:induction false} ElementsFreesOnlyUnmarked(b: Bodies, marks: set<Handle>, live: set<Handle>,
                                                     elems: seq<Value>, i: nat, bound: Handle)
    requires Ordered(b) && ElementsBelow(b, elems, bound) && i <= |elems|
    requires bound in b && b[bound].ArrayBody? && elems == b[bound].elements
    requires ElementsSweep(b, marks, live, elems, i, bound).Ok?
    ensures var live' := ElementsSweep(b, marks, live, elems, i, bound).value;
      forall x | x in live && x !in live' :: x !in marks && x in Reach(b, bound)
    decreases bound, 0, |elems| - i
  {
    assert Reach(b, bound) == {bound} + ReachAll(b, elems, bound);
    if i < |elems| && elems[i].ObjectValue? {
      var o := elems[i].handle;
      ReachAllCovers(b, elems, bound, i);
      if o !in marks {
        if b[o].StringBody? {
          ElementsFreesOnlyUnmarked(b, marks, live - {o}, elems, i + 1, bound);
        } else {
          var live' := ArraySweepAsWritten(b, marks, live, o).value;
          ArraySweepFreesOnlyUnmarked(b, marks, live, o);
          ElementsFreesOnlyUnmarked(b, marks, live', elems, i + 1, bound);
        }
      } else {
        ElementsFreesOnlyUnmarked(b, marks, live, elems, i + 1, bound);
      }
    } else if i < |elems| {
      ElementsFreesOnlyUnmarked(b, marks, live, elems, i + 1, bound);
    }
  }

  // ---------------------------------------------------------------------
  // gc_sweep as written

  /** gc_sweep as written, with pos as an index p into the current list.
      An unmarked head is deleted and pos becomes the new head, which the
      loop step then reads (array_sweep may just have freed it) and skips;
      an unmarked entry elsewhere is deleted after pos steps back to its
      predecessor, whose next the loop step then reads, so a predecessor
      that array_sweep freed is a use after free too.  Strings are freed,
      arrays go through array_sweep.  Only what the model needs is
      stated: the walk only frees, and every entry it unlinks was unmarked
      and is freed. */
  function SweepAsWritten(b: Bodies, marks: set<Handle>, list: seq<Handle>, live: set<Handle>, p: nat)
    : (r: Result<(seq<Handle>, set<Handle>), HeapError>)
    requires Ordered(b) && forall h | h in list :: h in b
    ensures r.Ok? ==> r.value.1 <= live && forall x | x in r.value.0 :: x in list
    ensures r.Ok? ==> forall x | x in list && x !in r.value.0 :: x !in marks && x !in r.value.1
    decreases |list| - p
  {
    if p >= |list| then Ok((list, live))
    else
      var h := list[p];
      if h !in live then Err(UseAfterFree)
      else if h in marks then SweepAsWritten(b, marks, list, live, p + 1)
      else
        var list' :- DeleteAsWritten(list, h);
        DeleteKeeps(list, h);
        var live' :- if b[h].StringBody? then Ok(live - {h}) else ArraySweepAsWritten(b, marks, live, h);
        if p == 0 then
          if list' == [] then Err(NullDereference)
          else if list'[0] !in live' then Err(UseAfterFree)
          else SweepAsWritten(b, marks, list', live', 1)
        else if p - 1 < |list'| && list'[p - 1] !in live' then Err(UseAfterFree)
        else SweepAsWritten(b, marks, list', live', p)
  }

  /** Unlinking h keeps every other entry and adds none. */
  lemma {:induction false} DeleteKeeps(list: seq<Handle>, h: Handle)
    requires h in list
    ensures DeleteAsWritten(list, h).Ok? ==> forall x | x in list && x != h :: x in DeleteAsWritten(list, h).value
    ensures DeleteAsWritten(list, h).Ok? ==> forall x | x in DeleteAsWritten(list, h).value :: x in list
  {
    var i := IndexOf(list, h);
    forall x | x in list
      ensures x != h ==> x in list[..i] + list[i + 1..]
    {
      if x != h {
        var j :| 0 <= j < |list| && list[j] == x;
        if j < i { assert list[..i][j] == x; } else { assert j != i && list[i + 1..][j - i - 1] == x; }
      }
    }
  }

  /** Two unreachable strings: the code frees the head and skips the new
      head, so the older string stays linked and allocated, where the
      intended sweep frees both. */
  lemma {:induction false} SweepSkipsNewHead()
    ensures Ordered(map[0 := StringBody("a", false), 1 := StringBody("b", false)])
    ensures SweepAsWritten(map[0 := StringBody("a", false), 1 := StringBody("b", false)], {}, [1, 0], {0, 1}, 0)
         == Ok(([0], {0}))
    ensures Sweep(HeapState(map[0 := HeapObject(StringBody("a", false), false),
                                1 := HeapObject(StringBody("b", false), false)], [1, 0], 2)).list == []
  {
    var b := map[0 := StringBody("a", false), 1 := StringBody("b", false)];
    assert IndexOf([1, 0], 1) == 0;
    assert [1, 0][..0] + [1, 0][1..] == [0];
    assert DeleteAsWritten([1, 0], 1) == Ok([0]);
    assert {0, 1} - {1} == {0};
    assert SweepAsWritten(b, {}, [0], {0}, 1) == Ok(([0], {0}));
    var objs := map[0 := HeapObject(StringBody("a", false), false), 1 := HeapObject(StringBody("b", false), false)];
    assert Survivors([0], objs) == [] by { assert [0][1..] == []; }
    assert Survivors([1, 0], objs) == [];
  }

  /** An unreachable object at the tail, that is the oldest object, makes
      the code follow a NULL link; a lone unreachable object does too. */
  lemma {:induction false} SweepTailFails()
    ensures SweepAsWritten(map[0 := StringBody("a", false), 1 := StringBody("b", false)], {1}, [1, 0], {0, 1}, 0)
         == Err(NullDereference)
    ensures SweepAsWritten(map[0 := StringBody("a", false)], {}, [0], {0}, 0) == Err(NullDereference)
  {
    assert IndexOf([1, 0], 0) == 1 by { assert [1, 0][1..] == [0]; }
    assert IndexOf([0], 0) == 0;
  }

  /** An unreachable array at the head holding the only other object, an
      unreachable string: the head is unlinked, pos becomes the string, and
      array_sweep frees it before the loop step reads it, where the intended
      sweep frees both. */
  lemma {:induction false} SweepFreesNewHead()
    ensures var b := map[0 := StringBody("a", false), 1 := ArrayBody([ObjectValue(0)])];
      && Ordered(b)
      && SweepAsWritten(b, {}, [1, 0], {0, 1}, 0) == Err(UseAfterFree)
    ensures Sweep(HeapState(map[0 := HeapObject(StringBody("a", false), false),
                                1 := HeapObject(ArrayBody([ObjectValue(0)]), false)], [1, 0], 2)).list == []
  {
    var b := map[0 := StringBody("a", false), 1 := ArrayBody([ObjectValue(0)])];
    assert Ordered(b);
    assert IndexOf([1, 0], 1) == 0;
    assert [1, 0][..0] + [1, 0][1..] == [0];
    assert DeleteAsWritten([1, 0], 1) == Ok([0]);
    assert ElementsSweep(b, {}, {0, 1}, [ObjectValue(0)], 0, 1) == Ok({1}) by {
      assert {0, 1} - {0} == {1};
    }
    assert ArraySweepAsWritten(b, {}, {0, 1}, 1) == Ok({}) by {
      assert {1} - {1} == {};
    }
    var objs := map[0 := HeapObject(StringBody("a", false), false), 1 := HeapObject(ArrayBody([ObjectValue(0)]), false)];
    assert Survivors([0], objs) == [] by { assert [0][1..] == []; }
    assert Survivors([1, 0], objs) == [];
  }

  /** An unreachable array with an unreachable string element: array_sweep
      frees the string while it is still linked, so the walk then reads a
      freed object. */
  lemma {:induction false} SweepReadsFreedElement()
    ensures var b := map[0 := StringBody("a", false), 1 := ArrayBody([ObjectValue(0)]), 2 := StringBody("c", false)];
      && Ordered(b)
      && SweepAsWritten(b, {2}, [2, 1, 0], {0, 1, 2}, 0) == Err(UseAfterFree)
  {
    var b := map[0 := StringBody("a", false), 1 := ArrayBody([ObjectValue(0)]), 2 := StringBody("c", false)];
    assert Ordered(b);
    assert IndexOf([2, 1, 0], 1) == 1 by { assert [2, 1, 0][1..] == [1, 0]; }
    assert [2, 1, 0][..1] + [2, 1, 0][2..] == [2, 0];
    assert ElementsSweep(b, {2}, {0, 1, 2}, [ObjectValue(0)], 0, 1) == Ok({1, 2}) by {
      assert {0, 1, 2} - {0} == {1, 2};
    }
    assert ArraySweepAsWritten(b, {2}, {0, 1, 2}, 1) == Ok({2}) by {
      assert {1, 2} - {1} == {2};
    }
    assert SweepAsWritten(b, {2}, [2, 0], {2}, 1) == Err(UseAfterFree);
  }
}
