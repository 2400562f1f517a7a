/** The object heap of heap.c as an arena: objects are addressed by handle,
    and the doubly linked management list is the sequence of handles from
    heap_head onwards (an object's prev and next are its neighbours in it).
    HeapState and the functions on it are the specification of the
    collector; the class in module HeapStore follows them. */
module Heap {
  import opened Results
  import opened Share

  /** The payload of an object (LL1LL_String / LL1LL_Array). */
  datatype ObjectBody =
    | StringBody(chars: string, isLiteral: bool)
    | ArrayBody(elements: seq<Value>)

  /** LL1LL_Object without its list links. */
  datatype HeapObject = HeapObject(body: ObjectBody, marked: bool)

  type Bodies = map<Handle, ObjectBody>

  /** The fatal outcomes of heap.c. */
  datatype HeapError = DeleteFromEmptyList | NullDereference | UseAfterFree

  datatype HeapState = HeapState(
    objects: map<Handle, HeapObject>,  // every allocated, not yet freed object
    list: seq<Handle>,                 // the management list, head first
    nextHandle: nat)                   // the next handle to hand out

  function BodiesOf(objs: map<Handle, HeapObject>): (b: Bodies)
    ensures b.Keys == objs.Keys
    ensures forall h | h in b :: b[h] == objs[h].body
  {
    map h | h in objs :: objs[h].body
  }

  function MarkedSet(objs: map<Handle, HeapObject>): (m: set<Handle>)
    ensures forall h :: h in m <==> h in objs && objs[h].marked
  {
    set h | h in objs && objs[h].marked
  }

  /** Object-typed values refer to live objects older than bound. */
  predicate ElementsBelow(b: Bodies, vals: seq<Value>, bound: int) {
    forall i | 0 <= i < |vals| && vals[i].ObjectValue? :: vals[i].handle in b && vals[i].handle < bound
  }

  /** Object-typed values refer to live objects. */
  predicate AllLive(b: Bodies, vals: seq<Value>) {
    forall i | 0 <= i < |vals| && vals[i].ObjectValue? :: vals[i].handle in b
  }

  /** Every array refers only to older objects, so no array reaches itself:
      the recursion of array_mark and array_sweep ends. */
  predicate Ordered(b: Bodies) {
    forall h | h in b && b[h].ArrayBody? :: ElementsBelow(b, b[h].elements, h)
  }

  ghost predicate NoDuplicates(s: seq<Handle>) {
    forall i, j | 0 <= i < j < |s| :: s[i] != s[j]
  }

  /** The list links exactly the live objects, once each; handles are below
      the next one handed out; arrays refer to older live objects. */
  ghost predicate Valid(s: HeapState) {
    && NoDuplicates(s.list)
    && (forall h :: h in s.list <==> h in s.objects)
    && (forall h | h in s.objects :: h < s.nextHandle)
    && Ordered(BodiesOf(s.objects))
  }

  // ---------------------------------------------------------------------
  // Reachability

  /** The objects array_mark reaches from h: h itself and, through the
      object-typed elements of arrays, everything they reach. */
  function Reach(b: Bodies, h: Handle): (r: set<Handle>)
    requires Ordered(b)
    ensures r <= b.Keys
    ensures h in b <==> h in r
    decreases h, 1, 0
  {
    if h !in b then {}
    else match b[h]
      case StringBody(_, _) => {h}
      case ArrayBody(elems) => {h} + ReachAll(b, elems, h)
  }

  /** The union of what the values reach. */
  function ReachAll(b: Bodies, vals: seq<Value>, bound: Handle): (r: set<Handle>)
    requires Ordered(b) && ElementsBelow(b, vals, bound)
    ensures r <= b.Keys
    decreases bound, 0, |vals|
  {
    if vals == [] then {}
    else
      var last := vals[|vals| - 1];
      ReachAll(b, vals[..|vals| - 1], bound) + (if last.ObjectValue? then Reach(b, last.handle) else {})
  }

  /** What the GC roots reach. */
  function RootsReach(b: Bodies, roots: seq<Value>): (r: set<Handle>)
    requires Ordered(b) && AllLive(b, roots)
    ensures r <= b.Keys
    decreases |roots|
  {
    if roots == [] then {}
    else
      var last := roots[|roots| - 1];
      RootsReach(b, roots[..|roots| - 1]) + (if last.ObjectValue? then Reach(b, last.handle) else {})
  }

  /** A set closed under the references of its arrays. */
  ghost predicate Closed(b: Bodies, s: set<Handle>) {
    forall x, i | x in s && x in b && b[x].ArrayBody? && 0 <= i < |b[x].elements|
                  && b[x].elements[i].ObjectValue? :: b[x].elements[i].handle in s
  }

  // ---------------------------------------------------------------------
  // Allocation (addHeapEntry with alloc_string / cat_string / alloc_array)

  /** addHeapEntry plus the allocation that precedes it: a fresh unmarked
      object, linked in front of the old head. */
  function Allocate(s: HeapState, body: ObjectBody): (r: (HeapState, Handle))
  {
    var h := s.nextHandle;
    (HeapState(s.objects[h := HeapObject(body, false)], [h] + s.list, h + 1), h)
  }

  function AllocString(s: HeapState, src: string, isLiteral: bool): (r: (HeapState, Handle)) {
    Allocate(s, StringBody(src, isLiteral))
  }

  /** cat_string: the concatenation, never a literal. */
  function CatString(s: HeapState, str1: string, str2: string): (r: (HeapState, Handle)) {
    Allocate(s, StringBody(str1 + str2, false))
  }

  /** alloc_array with the elements the caller stores into it. */
  function AllocArray(s: HeapState, elements: seq<Value>): (r: (HeapState, Handle)) {
    Allocate(s, ArrayBody(elements))
  }

  /** Allocation keeps the heap valid and adds exactly one unmarked object
      at the head; the rest of the list and every other object stay. */
  lemma {:induction false} AllocateValid(s: HeapState, body: ObjectBody)
    requires Valid(s)
    requires body.ArrayBody? ==> AllLive(BodiesOf(s.objects), body.elements)
    ensures var (s', h) := Allocate(s, body);
      && Valid(s') && h !in s.objects && s'.list == [h] + s.list
      && s'.objects[h] == HeapObject(body, false)
      && (forall k | k in s.objects :: k in s'.objects && s'.objects[k] == s.objects[k])
      && s'.objects.Keys == s.objects.Keys + {h}
  {
    var (s', h) := Allocate(s, body);
    assert h !in s.list;
    assert forall i | 1 <= i < |s'.list| :: s'.list[i] == s.list[i - 1];
    var b, b' := BodiesOf(s.objects), BodiesOf(s'.objects);
    forall x | x in b' && b'[x].ArrayBody?
      ensures ElementsBelow(b', b'[x].elements, x)
    {
      if x != h {
        assert ElementsBelow(b, b[x].elements, x);
      }
    }
  }

  // ---------------------------------------------------------------------
  // deleteHeapEntry

  /** The position of h in the list: the first one. */
  function IndexOf(list: seq<Handle>, h: Handle): (i: nat)
    requires h in list
    ensures i < |list| && list[i] == h && h !in list[..i]
  {
    if list[0] == h then 0 else 1 + IndexOf(list[1..], h)
  }

  /** deleteHeapEntry's unlinking, as intended: the entry leaves the list
      and its neighbours are joined.  An empty list is fatal. */
  function Unlink(list: seq<Handle>, h: Handle): (r: Result<seq<Handle>, HeapError>)
    requires list == [] || h in list
    ensures r.Ok? <==> list != []
    ensures r.Err? ==> r.error == DeleteFromEmptyList
  {
    if list == [] then Err(DeleteFromEmptyList)
    else
      var i := IndexOf(list, h);
      Ok(list[..i] + list[i + 1..])
  }

  /** On a list without duplicates, exactly h goes away, the others keep
      their order, and h's old neighbours become each other's neighbours. */
  lemma {:induction false} UnlinkExact(list: seq<Handle>, h: Handle)
    requires NoDuplicates(list) && h in list
    ensures var r := Unlink(list, h).value;
      && NoDuplicates(r)
      && (forall x :: x in r <==> x in list && x != h)
      && |r| == |list| - 1
      && (forall j | 0 <= j < |r| :: r[j] == if j < IndexOf(list, h) then list[j] else list[j + 1])
  {
    var i := IndexOf(list, h);
    var r := Unlink(list, h).value;
    assert |r| == |list| - 1;
    assert forall j | 0 <= j < |r| :: r[j] == if j < i then list[j] else list[j + 1];
    forall x
      ensures x in r <==> x in list && x != h
    {
      if x in list && x != h {
        var j :| 0 <= j < |list| && list[j] == x;
        if j < i { assert r[j] == x; } else { assert j > i && r[j - 1] == x; }
      }
    }
  }

  // ---------------------------------------------------------------------
  // Mark phase

  /** gc_mark: every mark cleared, then every object the roots reach
      marked. */
  function Mark(s: HeapState, roots: seq<Value>): (r: HeapState)
    requires Ordered(BodiesOf(s.objects)) && AllLive(BodiesOf(s.objects), roots)
  {
    var reach := RootsReach(BodiesOf(s.objects), roots);
    s.(objects := map h | h in s.objects :: s.objects[h].(marked := h in reach))
  }

  /** array_mark: the marks of everything h reaches are set, the others are
      left as they were. */
  function MarkArray(objs: map<Handle, HeapObject>, h: Handle): (r: map<Handle, HeapObject>)
    requires Ordered(BodiesOf(objs))
  {
    var reach := Reach(BodiesOf(objs), h);
    map k | k in objs :: objs[k].(marked := objs[k].marked || k in reach)
  }

  /** Whatever x reaches, whatever h reaches also reaches. */
  lemma {:induction false} ReachTransitive(b: Bodies, h: Handle, x: Handle)
    requires Ordered(b) && x in Reach(b, h)
    ensures Reach(b, x) <= Reach(b, h)
    decreases h, 1, 0
  {
    if x != h {
      ReachAllTransitive(b, b[h].elements, h, x);
    }
  }

  lemma {:induction false} ReachAllTransitive(b: Bodies, vals: seq<Value>, bound: Handle, x: Handle)
    requires Ordered(b) && ElementsBelow(b, vals, bound) && x in ReachAll(b, vals, bound)
    ensures Reach(b, x) <= ReachAll(b, vals, bound)
    decreases bound, 0, |vals|
  {
    var last := vals[|vals| - 1];
    if x in ReachAll(b, vals[..|vals| - 1], bound) {
      assert ElementsBelow(b, vals[..|vals| - 1], bound);
      ReachAllTransitive(b, vals[..|vals| - 1], bound, x);
    } else {
      ReachTransitive(b, last.handle, x);
    }
  }

  /** Every object-typed value among vals has its reach inside ReachAll. */
  lemma {:induction false} ReachAllCovers(b: Bodies, vals: seq<Value>, bound: Handle, i: int)
    requires Ordered(b) && ElementsBelow(b, vals, bound)
    requires 0 <= i < |vals| && vals[i].ObjectValue?
    ensures Reach(b, vals[i].handle) <= ReachAll(b, vals, bound)
    decreases |vals|
  {
    if i < |vals| - 1 {
      assert vals[..|vals| - 1][i] == vals[i];
      ReachAllCovers(b, vals[..|vals| - 1], bound, i);
    }
  }

  /** What an object reaches is closed under references. */
  lemma {:induction false} ReachClosed(b: Bodies, h: Handle)
    requires Ordered(b)
    ensures Closed(b, Reach(b, h))
  {
    forall x, i | x in Reach(b, h) && x in b && b[x].ArrayBody? && 0 <= i < |b[x].elements|
                  && b[x].elements[i].ObjectValue?
      ensures b[x].elements[i].handle in Reach(b, h)
    {
      ReachTransitive(b, h, x);
      ReachAllCovers(b, b[x].elements, x, i);
    }
  }

  /** So is what the roots reach. */
  lemma {:induction false} RootsReachClosed(b: Bodies, roots: seq<Value>)
    requires Ordered(b) && AllLive(b, roots)
    ensures Closed(b, RootsReach(b, roots))
    decreases |roots|
  {
    if roots != [] {
      var last := roots[|roots| - 1];
      assert AllLive(b, roots[..|roots| - 1]);
      RootsReachClosed(b, roots[..|roots| - 1]);
      if last.ObjectValue? {
        ReachClosed(b, last.handle);
      }
    }
  }

  /** Every object a root refers to is reached, with everything it reaches. */
  lemma {:induction false} RootsReachCovers(b: Bodies, roots: seq<Value>, i: int)
    requires Ordered(b) && AllLive(b, roots)
    requires 0 <= i < |roots| && roots[i].ObjectValue?
    ensures Reach(b, roots[i].handle) <= RootsReach(b, roots)
    ensures roots[i].handle in RootsReach(b, roots)
    decreases |roots|
  {
    if i < |roots| - 1 {
      assert roots[..|roots| - 1][i] == roots[i];
      RootsReachCovers(b, roots[..|roots| - 1], i);
    }
  }

  /** After gc_mark the marked objects are exactly the reachable ones, the
      roots' objects among them, closed under references; nothing else of
      the heap changes. */
  lemma {:induction false} MarkResult(s: HeapState, roots: seq<Value>)
    requires Valid(s) && AllLive(BodiesOf(s.objects), roots)
    ensures var s' := Mark(s, roots);
      && Valid(s') && s'.list == s.list && BodiesOf(s'.objects) == BodiesOf(s.objects)
      && MarkedSet(s'.objects) == RootsReach(BodiesOf(s.objects), roots)
      && Closed(BodiesOf(s.objects), MarkedSet(s'.objects))
      && (forall i | 0 <= i < |roots| && roots[i].ObjectValue? :: s'.objects[roots[i].handle].marked)
  {
    var b := BodiesOf(s.objects);
    var s' := Mark(s, roots);
    assert BodiesOf(s'.objects) == b;
    RootsReachClosed(b, roots);
    forall i | 0 <= i < |roots| && roots[i].ObjectValue?
      ensures s'.objects[roots[i].handle].marked
    {
      RootsReachCovers(b, roots, i);
    }
  }

  // ---------------------------------------------------------------------
  // Sweep phase

  /** The marked handles of a list, in list order. */
  function Survivors(list: seq<Handle>, objs: map<Handle, HeapObject>): (r: seq<Handle>)
    requires forall h | h in list :: h in objs
    ensures |r| <= |list|
  {
    if list == [] then []
    else (if objs[list[0]].marked then [list[0]] else []) + Survivors(list[1..], objs)
  }

  /** gc_sweep as intended: every unmarked object is unlinked and freed,
      the marked ones stay in their relative order. */
  function Sweep(s: HeapState): (r: HeapState)
    requires forall h | h in s.list :: h in s.objects
  {
    HeapState(map h | h in s.objects && s.objects[h].marked :: s.objects[h],
              Survivors(s.list, s.objects), s.nextHandle)
  }

  /** Survivors keeps relative order: it distributes over concatenation. */
  lemma {:induction false} SurvivorsAppend(a: seq<Handle>, c: seq<Handle>, objs: map<Handle, HeapObject>)
    requires forall h | h in a + c :: h in objs
    ensures Survivors(a + c, objs) == Survivors(a, objs) + Survivors(c, objs)
    decreases |a|
  {
    if a == [] {
      assert a + c == c;
    } else {
      assert (a + c)[0] == a[0] && (a + c)[1..] == a[1..] + c;
      SurvivorsAppend(a[1..], c, objs);
    }
  }

  /** Survivors holds exactly the marked members of the list, once each. */
  lemma {:induction false} SurvivorsMembers(list: seq<Handle>, objs: map<Handle, HeapObject>)
    requires forall h | h in list :: h in objs
    requires NoDuplicates(list)
    ensures forall h :: h in Survivors(list, objs) <==> h in list && objs[h].marked
    ensures NoDuplicates(Survivors(list, objs))
    decreases |list|
  {
    if list != [] {
      assert NoDuplicates(list[1..]);
      SurvivorsMembers(list[1..], objs);
      assert forall h :: h in list <==> h == list[0] || h in list[1..];
    }
  }

  /** Sweeping a heap whose marks are closed under references keeps it
      valid, frees exactly the unmarked objects and leaves every survivor
      as it was. */
  lemma {:induction false} SweepResult(s: HeapState)
    requires Valid(s) && Closed(BodiesOf(s.objects), MarkedSet(s.objects))
    ensures var s' := Sweep(s);
      && Valid(s')
      && s'.objects.Keys == MarkedSet(s.objects)
      && (forall h | h in s'.objects :: s'.objects[h] == s.objects[h])
      && s'.list == Survivors(s.list, s.objects)
  {
    var s' := Sweep(s);
    SurvivorsMembers(s.list, s.objects);
    var b, b' := BodiesOf(s.objects), BodiesOf(s'.objects);
    forall x | x in b' && b'[x].ArrayBody?
      ensures ElementsBelow(b', b'[x].elements, x)
    {
      assert ElementsBelow(b, b[x].elements, x);
    }
  }

  /** startGC is gc_mark followed by gc_sweep. */
  function StartGC(s: HeapState, stack: seq<Value>, stackTop: nat): (r: HeapState)
    requires Valid(s) && stackTop <= |stack| && AllLive(BodiesOf(s.objects), stack[..stackTop])
  {
    MarkResult(s, stack[..stackTop]);
    Sweep(Mark(s, stack[..stackTop]))
  }

  /** The collector is safe and complete: afterwards the heap is valid and
      holds exactly the objects reachable from stack slots 0 .. stackTop-1,
      each with its contents unchanged, linked in their old order. */
  lemma {:induction false} StartGCResult(s: HeapState, stack: seq<Value>, stackTop: nat)
    requires Valid(s) && stackTop <= |stack| && AllLive(BodiesOf(s.objects), stack[..stackTop])
    ensures var s' := StartGC(s, stack, stackTop);
      && Valid(s')
      && s'.objects.Keys == RootsReach(BodiesOf(s.objects), stack[..stackTop])
      && (forall h | h in s'.objects :: s'.objects[h].body == s.objects[h].body)
      && s'.list == Survivors(s.list, Mark(s, stack[..stackTop]).objects)
  {
    var m := Mark(s, stack[..stackTop]);
    MarkResult(s, stack[..stackTop]);
    SweepResult(m);
  }
}
