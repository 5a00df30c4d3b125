/** The bounded checker of untrusted object graphs: values may be shared and cyclic, annotations may be
    recursive through model classes, and depth and visits are limited. */
module ContractShape {
  import opened Basics

  type Id = nat

  /** `Other` is an instance of a class whose instances hold no further value, such as an enumeration
      or a date. */
  datatype Value = Str(text: string) | IntValue(n: int) | BoolValue(b: bool) | NoneValue | Float(finite: bool)
                 | Other(className: string) | Ref(id: Id)

  datatype Obj =
    | Dict(keys: seq<Value>, values: seq<Value>)
    | List(items: seq<Value>)
    | Tuple(items: seq<Value>)
    | Set(items: seq<Value>)
    | FrozenSet(items: seq<Value>)
    /** `exact`: the instance has just the declared fields; `valid`: the class's own validators pass. */
    | Instance(className: string, exact: bool, fields: seq<Value>, valid: bool)
    /** An instance of any other class, such as a queue, with what it holds. */
    | Object(className: string, held: seq<Value>)

  type Heap = map<Id, Obj>

  /** The classes that are compared by exact type. A model class is not among them: it is looked into. */
  datatype Tag = StrTag | IntTag | BoolTag | NoneTag | FloatTag | LeafTag(className: string)
               | DictTag | ListTag | TupleTag | SetTag | FrozenSetTag | ClassTag(className: string)

  datatype Shape =
    | Anything
    | Annotated(inner: Shape)
    | OneOf(branches: seq<Shape>)
    | Model(className: string)
    | ListOf(item: Shape)
    | SetOf(item: Shape)
    | FrozenSetOf(item: Shape)
    | TupleOf(parts: seq<Shape>)
    | TupleAny(item: Shape)
    | DictOf(key: Shape, value: Shape)
    | Literals(literals: seq<Value>)
    | Exactly(tag: Tag)

  /** The object graph and, per model class, the shapes of its declared fields. */
  datatype World = World(heap: Heap, fields: map<string, seq<Shape>>)

  const MAX_DEPTH := 64
  const MAX_NODES := 8192

  /** The class of a value, unless that is a model class. */
  function TagOf(w: World, v: Value): Option<Tag> {
    match v
    case Str(_) => Some(StrTag)
    case IntValue(_) => Some(IntTag)
    case BoolValue(_) => Some(BoolTag)
    case NoneValue => Some(NoneTag)
    case Float(_) => Some(FloatTag)
    case Other(className) => Some(LeafTag(className))
    case Ref(id) =>
      if id !in w.heap then None
      else
        match w.heap[id]
        case Dict(_, _) => Some(DictTag)
        case List(_) => Some(ListTag)
        case Tuple(_) => Some(TupleTag)
        case Set(_) => Some(SetTag)
        case FrozenSet(_) => Some(FrozenSetTag)
        case Instance(_, _, _, _) => None
        case Object(className, _) => Some(ClassTag(className))
  }

  // ------------------------------------------------------------------ what one visit has to do

  /** Either an answer at once, or the container to enter, what to visit in it with which shapes, and
      the verdict if all of that goes well. */
  datatype Work = Leaf(ok: bool) | Inner(id: Id, items: seq<Value>, shapes: seq<Shape>, after: bool)

  function Same(s: Shape, n: nat): seq<Shape> {
    seq(n, _ => s)
  }

  function StringKeys(keys: seq<Value>): (k: nat)
    ensures k <= |keys| && forall i :: 0 <= i < k ==> keys[i].Str?
    ensures k < |keys| ==> !keys[k].Str?
  {
    if keys != [] && keys[0].Str? then
      var k := 1 + StringKeys(keys[1..]);
      assert forall i :: 0 < i < k ==> keys[i] == keys[1..][i - 1];
      k
    else 0
  }

  function Interleave<T>(a: seq<T>, b: seq<T>): seq<T> {
    seq(2 * Min(|a|, |b|), i requires 0 <= i < 2 * Min(|a|, |b|) => if i % 2 == 0 then a[i / 2] else b[i / 2])
  }

  function AnyWork(w: World, v: Value): (r: Work)
    ensures r.Inner? ==> |r.items| == |r.shapes| && v == Ref(r.id) && r.id in w.heap
  {
    match v
    case Ref(id) =>
      if id !in w.heap then Leaf(false)
      else (
        match w.heap[id]
        case Dict(keys, values) =>
          if |keys| != |values| then Leaf(false)
          else
            var k := StringKeys(keys);
            Inner(id, values[..k], Same(Anything, k), k == |keys|)
        case List(items) => Inner(id, items, Same(Anything, |items|), true)
        case _ => Leaf(false))
    case Float(finite) => Leaf(finite)
    case Other(_) => Leaf(false)
    case _ => Leaf(true)
  }

  function ContainerWork(w: World, id: Id, shape: Shape): (r: Work)
    requires id in w.heap
    ensures r.Inner? ==> |r.items| == |r.shapes| && r.id == id
  {
    var o := w.heap[id];
    match shape
    case Model(className) =>
      if !o.Instance? || o.className != className || !o.exact || className !in w.fields
         || |w.fields[className]| != |o.fields| then Leaf(false)
      else Inner(id, o.fields, w.fields[className], o.valid)
    case ListOf(s) => if !o.List? then Leaf(false) else Inner(id, o.items, Same(s, |o.items|), true)
    case SetOf(s) => if !o.Set? then Leaf(false) else Inner(id, o.items, Same(s, |o.items|), true)
    case FrozenSetOf(s) => if !o.FrozenSet? then Leaf(false) else Inner(id, o.items, Same(s, |o.items|), true)
    case TupleAny(s) => if !o.Tuple? then Leaf(false) else Inner(id, o.items, Same(s, |o.items|), true)
    case TupleOf(parts) =>
      if !o.Tuple? then Leaf(false)
      else if |o.items| != |parts| then Inner(id, [], [], false) else Inner(id, o.items, parts, true)
    case DictOf(k, v) =>
      if !o.Dict? || |o.keys| != |o.values| then Leaf(false)
      else Inner(id, Interleave(o.keys, o.values), Interleave(Same(k, |o.keys|), Same(v, |o.keys|)), true)
    case _ => Leaf(false)
  }

  function WorkFor(w: World, v: Value, shape: Shape): (r: Work)
    requires !shape.Annotated? && !shape.OneOf?
    ensures r.Inner? ==> |r.items| == |r.shapes| && v == Ref(r.id) && r.id in w.heap
  {
    if shape.Anything? then AnyWork(w, v)
    else if shape.Literals? then Leaf(v in shape.literals)
    else if shape.Exactly? then Leaf(TagOf(w, v) == Some(shape.tag))
    else if v.Ref? && v.id in w.heap then ContainerWork(w, v.id, shape)
    else Leaf(false)
  }

  // ------------------------------------------------------------------ the recursion as a function

  /** The verdict and the visit counter afterwards. */
  function Visit(w: World, v: Value, shape: Shape, depth: nat, active: set<Id>, visited: nat): (r: (bool, nat))
    requires depth <= MAX_DEPTH + 1
    decreases 2 * (MAX_DEPTH + 2 - depth), 0
  {
    var n := visited + 1;
    if depth > MAX_DEPTH || n > MAX_NODES then (false, n)
    else if shape.Annotated? then Visit(w, v, shape.inner, depth + 1, active, n)
    else if shape.OneOf? then BranchesFrom(w, v, shape.branches, 0, depth + 1, active, n)
    else
      var work := WorkFor(w, v, shape);
      if work.Leaf? then (work.ok, n)
      else if work.id in active then (false, n)
      else
        var r := VisitFrom(w, work.items, work.shapes, 0, depth + 1, active + {work.id}, n);
        (r.0 && work.after, r.1)
  }

  function VisitFrom(w: World, items: seq<Value>, shapes: seq<Shape>, i: nat, depth: nat, active: set<Id>, visited: nat)
    : (r: (bool, nat))
    requires depth <= MAX_DEPTH + 1 && i <= |items| == |shapes|
    decreases 2 * (MAX_DEPTH + 2 - depth), |items| - i
  {
    if i == |items| then (true, visited)
    else
      var r := Visit(w, items[i], shapes[i], depth, active, visited);
      if !r.0 then r else VisitFrom(w, items, shapes, i + 1, depth, active, r.1)
  }

  function BranchesFrom(w: World, v: Value, branches: seq<Shape>, i: nat, depth: nat, active: set<Id>, visited: nat)
    : (r: (bool, nat))
    requires depth <= MAX_DEPTH + 1 && i <= |branches|
    decreases 2 * (MAX_DEPTH + 2 - depth), |branches| - i
  {
    if i == |branches| then (false, visited)
    else
      var r := Visit(w, v, branches[i], depth, active, visited);
      if r.0 then r else BranchesFrom(w, v, branches, i + 1, depth, active, r.1)
  }

  // ------------------------------------------------------------------ the checker that updates its state

  class Checker {
    const w: World
    var active: set<Id>
    var visited: nat

    constructor (w: World)
      ensures this.w == w && active == {} && visited == 0
    {
      this.w, active, visited := w, {}, 0;
    }

    /** Whatever the answer, the containers being visited are afterwards what they were before. */
    method Check(v: Value, shape: Shape, depth: nat) returns (ok: bool)
      requires depth <= MAX_DEPTH + 1
      modifies this
      ensures active == old(active)
      ensures (ok, visited) == Visit(w, v, shape, depth, old(active), old(visited))
      decreases 2 * (MAX_DEPTH + 2 - depth), 0
    {
      visited := visited + 1;
      if depth > MAX_DEPTH || visited > MAX_NODES { return false; }
      if shape.Annotated? {
        ok := Check(v, shape.inner, depth + 1);
        return;
      }
      if shape.OneOf? {
        ok := CheckBranches(v, shape.branches, depth + 1);
        return;
      }
      var work := WorkFor(w, v, shape);
      if work.Leaf? { return work.ok; }
      if work.id in active { return false; }
      active := active + {work.id};
      ok := CheckAll(work.items, work.shapes, depth + 1);
      active := active - {work.id};
      ok := ok && work.after;
    }

    method CheckAll(items: seq<Value>, shapes: seq<Shape>, depth: nat) returns (ok: bool)
      requires depth <= MAX_DEPTH + 1 && |items| == |shapes|
      modifies this
      ensures active == old(active)
      ensures (ok, visited) == VisitFrom(w, items, shapes, 0, depth, old(active), old(visited))
      decreases 2 * (MAX_DEPTH + 2 - depth), |items| + 1
    {
      for i := 0 to |items|
        invariant active == old(active)
        invariant VisitFrom(w, items, shapes, 0, depth, old(active), old(visited))
               == VisitFrom(w, items, shapes, i, depth, old(active), visited)
      {
        var good := Check(items[i], shapes[i], depth);
        if !good { return false; }
      }
      return true;
    }

    method CheckBranches(v: Value, branches: seq<Shape>, depth: nat) returns (ok: bool)
      requires depth <= MAX_DEPTH + 1
      modifies this
      ensures active == old(active)
      ensures (ok, visited) == BranchesFrom(w, v, branches, 0, depth, old(active), old(visited))
      decreases 2 * (MAX_DEPTH + 2 - depth), |branches| + 1
    {
      for i := 0 to |branches|
        invariant active == old(active)
        invariant BranchesFrom(w, v, branches, 0, depth, old(active), old(visited))
               == BranchesFrom(w, v, branches, i, depth, old(active), visited)
      {
        var good := Check(v, branches[i], depth);
        if good { return true; }
      }
      return false;
    }
  }

  // ------------------------------------------------------------------ the visit budget

  /** Acceptance never happens beyond the budget, and every visit is counted. */
  lemma {:induction false} AcceptedWithinBudget(w: World, v: Value, shape: Shape, depth: nat, active: set<Id>,
                                        visited: nat)
    requires depth <= MAX_DEPTH + 1
    ensures var r := Visit(w, v, shape, depth, active, visited); r.1 > visited && (r.0 ==> r.1 <= MAX_NODES)
    decreases 2 * (MAX_DEPTH + 2 - depth), 0
  {
    var n := visited + 1;
    if depth <= MAX_DEPTH && n <= MAX_NODES {
      if shape.Annotated? {
        AcceptedWithinBudget(w, v, shape.inner, depth + 1, active, n);
      } else if shape.OneOf? {
        BranchesWithinBudget(w, v, shape.branches, 0, depth + 1, active, n);
      } else {
        var work := WorkFor(w, v, shape);
        if work.Inner? && work.id !in active {
          AllWithinBudget(w, work.items, work.shapes, 0, depth + 1, active + {work.id}, n);
        }
      }
    }
  }

  lemma {:induction false} AllWithinBudget(w: World, items: seq<Value>, shapes: seq<Shape>, i: nat, depth: nat,
                                           active: set<Id>, visited: nat)
    requires depth <= MAX_DEPTH + 1 && i <= |items| == |shapes| && visited <= MAX_NODES
    ensures var r := VisitFrom(w, items, shapes, i, depth, active, visited); r.1 >= visited && (r.0 ==> r.1 <= MAX_NODES)
    decreases 2 * (MAX_DEPTH + 2 - depth), |items| - i
  {
    if i < |items| {
      AcceptedWithinBudget(w, items[i], shapes[i], depth, active, visited);
      var r := Visit(w, items[i], shapes[i], depth, active, visited);
      if r.0 { AllWithinBudget(w, items, shapes, i + 1, depth, active, r.1); }
    }
  }

  lemma {:induction false} BranchesWithinBudget(w: World, v: Value, branches: seq<Shape>, i: nat, depth: nat,
                                                active: set<Id>, visited: nat)
    requires depth <= MAX_DEPTH + 1 && i <= |branches|
    ensures var r := BranchesFrom(w, v, branches, i, depth, active, visited); r.1 >= visited && (r.0 ==> r.1 <= MAX_NODES)
    decreases 2 * (MAX_DEPTH + 2 - depth), |branches| - i
  {
    if i < |branches| {
      AcceptedWithinBudget(w, v, branches[i], depth, active, visited);
      var r := Visit(w, v, branches[i], depth, active, visited);
      if !r.0 { BranchesWithinBudget(w, v, branches, i + 1, depth, active, r.1); }
    }
  }

  /** No union in the shape has more than `k + 1` branches. */
  predicate Narrow(s: Shape, k: nat) {
    match s
    case Annotated(inner) => Narrow(inner, k)
    case OneOf(branches) => |branches| <= k + 1 && forall b :: b in branches ==> Narrow(b, k)
    case ListOf(item) => Narrow(item, k)
    case SetOf(item) => Narrow(item, k)
    case FrozenSetOf(item) => Narrow(item, k)
    case TupleAny(item) => Narrow(item, k)
    case TupleOf(parts) => forall p :: p in parts ==> Narrow(p, k)
    case DictOf(key, value) => Narrow(key, k) && Narrow(value, k)
    case _ => true
  }

  predicate NarrowWorld(w: World, k: nat) {
    forall c :: c in w.fields ==> forall s :: s in w.fields[c] ==> Narrow(s, k)
  }

  lemma {:induction false} WorkIsNarrow(w: World, v: Value, s: Shape, k: nat)
    requires NarrowWorld(w, k) && Narrow(s, k) && !s.Annotated? && !s.OneOf?
    ensures var work := WorkFor(w, v, s); work.Inner? ==> forall x :: x in work.shapes ==> Narrow(x, k)
  {
  }

  function Overrun(k: nat, depth: nat): nat
    requires depth <= MAX_DEPTH + 1
  {
    (MAX_DEPTH + 1 - depth) * k
  }

  lemma {:induction false} OverrunStep(k: nat, depth: nat)
    requires depth <= MAX_DEPTH
    ensures Overrun(k, depth) == Overrun(k, depth + 1) + k
  {
    assert (MAX_DEPTH + 1 - depth) * k == (MAX_DEPTH - depth) * k + k;
  }

  /** Rejection is bounded too: once the budget is spent only the union alternatives still open on the
      way back are tried, each with one visit. */
  lemma {:induction false} VisitsAreBounded(w: World, v: Value, shape: Shape, depth: nat, active: set<Id>,
                                        visited: nat, k: nat)
    requires depth <= MAX_DEPTH + 1 && NarrowWorld(w, k) && Narrow(shape, k)
    ensures Visit(w, v, shape, depth, active, visited).1 <= Max(visited, MAX_NODES) + 1 + Overrun(k, depth)
    decreases 2 * (MAX_DEPTH + 2 - depth), 0
  {
    var n := visited + 1;
    if depth <= MAX_DEPTH && n <= MAX_NODES {
      OverrunStep(k, depth);
      if shape.Annotated? {
        VisitsAreBounded(w, v, shape.inner, depth + 1, active, n, k);
      } else if shape.OneOf? {
        BranchesAreBounded(w, v, shape.branches, 0, depth + 1, active, n, k);
      } else {
        var work := WorkFor(w, v, shape);
        if work.Inner? && work.id !in active {
          WorkIsNarrow(w, v, shape, k);
          AllAreBounded(w, work.items, work.shapes, 0, depth + 1, active + {work.id}, n, k);
        }
      }
    }
  }

  lemma {:induction false} AllAreBounded(w: World, items: seq<Value>, shapes: seq<Shape>, i: nat, depth: nat,
                                         active: set<Id>, visited: nat, k: nat)
    requires depth <= MAX_DEPTH + 1 && i <= |items| == |shapes| && visited <= MAX_NODES
    requires NarrowWorld(w, k) && forall s :: s in shapes ==> Narrow(s, k)
    ensures VisitFrom(w, items, shapes, i, depth, active, visited).1 <= MAX_NODES + 1 + Overrun(k, depth)
    decreases 2 * (MAX_DEPTH + 2 - depth), |items| - i
  {
    if i < |items| {
      VisitsAreBounded(w, items[i], shapes[i], depth, active, visited, k);
      AcceptedWithinBudget(w, items[i], shapes[i], depth, active, visited);
      var r := Visit(w, items[i], shapes[i], depth, active, visited);
      if r.0 { AllAreBounded(w, items, shapes, i + 1, depth, active, r.1, k); }
    }
  }

  lemma {:induction false} SpentBranches(w: World, v: Value, branches: seq<Shape>, i: nat, depth: nat,
                                        active: set<Id>, visited: nat)
    requires depth <= MAX_DEPTH + 1 && i <= |branches| && visited >= MAX_NODES
    ensures BranchesFrom(w, v, branches, i, depth, active, visited) == (false, visited + |branches| - i)
    decreases |branches| - i
  {
    if i < |branches| {
      SpentBranches(w, v, branches, i + 1, depth, active, visited + 1);
    }
  }

  lemma {:induction false} BranchesAreBounded(w: World, v: Value, branches: seq<Shape>, i: nat, depth: nat,
                                              active: set<Id>, visited: nat, k: nat)
    requires depth <= MAX_DEPTH + 1 && i <= |branches| && visited <= MAX_NODES
    requires NarrowWorld(w, k) && forall s :: s in branches ==> Narrow(s, k)
    ensures BranchesFrom(w, v, branches, i, depth, active, visited).1 <= MAX_NODES + (|branches| - i) + Overrun(k, depth)
    decreases 2 * (MAX_DEPTH + 2 - depth), |branches| - i
  {
    if i < |branches| {
      VisitsAreBounded(w, v, branches[i], depth, active, visited, k);
      var r := Visit(w, v, branches[i], depth, active, visited);
      if !r.0 {
        if r.1 <= MAX_NODES {
          BranchesAreBounded(w, v, branches, i + 1, depth, active, r.1, k);
        } else {
          SpentBranches(w, v, branches, i + 1, depth, active, r.1);
        }
      }
    }
  }

  // ------------------------------------------------------------------ what acceptance says of the graph

  function Children(o: Obj): seq<Value> {
    match o
    case Dict(keys, values) => keys + values
    case List(items) => items
    case Tuple(items) => items
    case Set(items) => items
    case FrozenSet(items) => items
    case Instance(_, _, fields, _) => fields
    case Object(_, held) => held
  }

  /** The containers met one after the other, each held by the one before. */
  predicate IsPath(heap: Heap, v: Value, path: seq<Id>)
    decreases |path|
  {
    path == [] ||
    (v == Ref(path[0]) && path[0] in heap
     && (|path| == 1 || exists c :: c in Children(heap[path[0]]) && IsPath(heap, c, path[1..])))
  }

  /** Instances of the class hold no further value. */
  predicate Atomic(t: Tag) {
    t.StrTag? || t.IntTag? || t.BoolTag? || t.NoneTag? || t.FloatTag? || t.LeafTag?
  }

  /** The shape never accepts a container by its bare type: everything it accepts is looked into. */
  predicate Deep(s: Shape) {
    match s
    case Annotated(inner) => Deep(inner)
    case OneOf(branches) => forall b :: b in branches ==> Deep(b)
    case ListOf(item) => Deep(item)
    case SetOf(item) => Deep(item)
    case FrozenSetOf(item) => Deep(item)
    case TupleAny(item) => Deep(item)
    case TupleOf(parts) => forall p :: p in parts ==> Deep(p)
    case DictOf(key, value) => Deep(key) && Deep(value)
    case Literals(literals) => forall l :: l in literals ==> !l.Ref?
    case Exactly(tag) => Atomic(tag)
    case _ => true
  }

  predicate DeepWorld(w: World) {
    forall c :: c in w.fields ==> forall s :: s in w.fields[c] ==> Deep(s)
  }

  lemma {:induction false} WorkIsDeep(w: World, v: Value, s: Shape)
    requires DeepWorld(w) && Deep(s) && !s.Annotated? && !s.OneOf?
    ensures var work := WorkFor(w, v, s); work.Inner? ==> forall x :: x in work.shapes ==> Deep(x)
  {
  }

  lemma {:induction false} InterleaveMember<T>(a: seq<T>, b: seq<T>, i: nat)
    requires |a| == |b| && i < |a|
    ensures 2 * i + 1 < |Interleave(a, b)| && Interleave(a, b)[2 * i] == a[i] && Interleave(a, b)[2 * i + 1] == b[i]
  {
  }

  /** Every container held by an accepted container is among the values visited in it. */
  lemma {:induction false} WorkCoversChildren(w: World, v: Value, s: Shape, c: Value)
    requires !s.Annotated? && !s.OneOf?
    requires WorkFor(w, v, s).Inner? && WorkFor(w, v, s).after
    requires c in Children(w.heap[WorkFor(w, v, s).id]) && c.Ref?
    ensures c in WorkFor(w, v, s).items
  {
    var work := WorkFor(w, v, s);
    var o := w.heap[work.id];
    if s.DictOf? {
      if c in o.keys {
        var i :| 0 <= i < |o.keys| && o.keys[i] == c;
        InterleaveMember(o.keys, o.values, i);
      } else {
        var i :| 0 <= i < |o.values| && o.values[i] == c;
        InterleaveMember(o.keys, o.values, i);
      }
    }
  }

  // ------------------------------------------------------------------ what an accepting run walks through

  /** The visit counter when an accepting loop comes to item `j`. */
  function CountAt(w: World, items: seq<Value>, shapes: seq<Shape>, i: nat, depth: nat, active: set<Id>, visited: nat, j: nat)
    : (n: nat)
    requires depth <= MAX_DEPTH + 1 && i <= j < |items| == |shapes|
    requires VisitFrom(w, items, shapes, i, depth, active, visited).0
    ensures Visit(w, items[j], shapes[j], depth, active, n).0
    decreases j - i
  {
    if i == j then visited
    else CountAt(w, items, shapes, i + 1, depth, active, Visit(w, items[i], shapes[i], depth, active, visited).1, j)
  }

  /** The union alternative that was accepted, and the counter when it was tried. */
  function AcceptedBranch(w: World, v: Value, branches: seq<Shape>, i: nat, depth: nat, active: set<Id>, visited: nat)
    : (r: (nat, nat))
    requires depth <= MAX_DEPTH + 1 && i <= |branches| && BranchesFrom(w, v, branches, i, depth, active, visited).0
    ensures r.0 < |branches| && Visit(w, v, branches[r.0], depth, active, r.1).0
    decreases |branches| - i
  {
    var r := Visit(w, v, branches[i], depth, active, visited);
    if r.0 then (i, visited) else AcceptedBranch(w, v, branches, i + 1, depth, active, r.1)
  }

  /** The containers the accepting visit enters, one inside the other. */
  predicate Walked(w: World, v: Value, shape: Shape, depth: nat, active: set<Id>, visited: nat, path: seq<Id>)
    requires depth <= MAX_DEPTH + 1 && Visit(w, v, shape, depth, active, visited).0
    decreases 2 * (MAX_DEPTH + 2 - depth)
  {
    var n := visited + 1;
    if path == [] then true
    else if shape.Annotated? then Walked(w, v, shape.inner, depth + 1, active, n, path)
    else if shape.OneOf? then
      var (j, m) := AcceptedBranch(w, v, shape.branches, 0, depth + 1, active, n);
      Walked(w, v, shape.branches[j], depth + 1, active, m, path)
    else
      var work := WorkFor(w, v, shape);
      && work.Inner? && work.id == path[0]
      && (|path| == 1 || exists j: nat ::
            j < |work.items|
            && Walked(w, work.items[j], work.shapes[j], depth + 1, active + {work.id},
                      CountAt(w, work.items, work.shapes, 0, depth + 1, active + {work.id}, n, j), path[1..]))
  }

  predicate Tidy(path: seq<Id>, active: set<Id>) {
    && (forall i :: 0 <= i < |path| ==> path[i] !in active)
    && (forall i, j :: 0 <= i < j < |path| ==> path[i] != path[j])
  }

  lemma {:induction false} TidyCons(path: seq<Id>, active: set<Id>)
    requires path != [] && path[0] !in active && Tidy(path[1..], active + {path[0]})
    ensures Tidy(path, active)
  {
    assert forall i :: 0 < i < |path| ==> path[i] == path[1..][i - 1];
  }

  lemma {:induction false} EmptyIsTidy(active: set<Id>)
    ensures Tidy([], active)
  {
  }

  /** What acceptance says of the first step. */
  lemma {:induction false} AcceptedStep(w: World, v: Value, shape: Shape, depth: nat, active: set<Id>, visited: nat)
    requires depth <= MAX_DEPTH + 1 && Visit(w, v, shape, depth, active, visited).0
    ensures depth <= MAX_DEPTH
    ensures shape.Annotated? ==> Visit(w, v, shape.inner, depth + 1, active, visited + 1).0
    ensures shape.OneOf? ==> BranchesFrom(w, v, shape.branches, 0, depth + 1, active, visited + 1).0
    ensures !shape.Annotated? && !shape.OneOf? && WorkFor(w, v, shape).Inner? ==>
              var work := WorkFor(w, v, shape);
              work.id !in active && VisitFrom(w, work.items, work.shapes, 0, depth + 1, active + {work.id}, visited + 1).0
  {
  }

  /** Whatever the shapes: along every walked path no container is entered twice, none of those already
      being visited is entered again, and the depth limit is kept. */
  lemma {:induction false} WalkedIsTidy(w: World, v: Value, shape: Shape, depth: nat, active: set<Id>, visited: nat,
                                        path: seq<Id>)
    requires depth <= MAX_DEPTH + 1 && Visit(w, v, shape, depth, active, visited).0
    requires Walked(w, v, shape, depth, active, visited, path)
    ensures |path| + depth <= MAX_DEPTH + 1 && Tidy(path, active)
    decreases 2 * (MAX_DEPTH + 2 - depth)
  {
    hide Visit, VisitFrom, BranchesFrom, WorkFor, Tidy;
    AcceptedStep(w, v, shape, depth, active, visited);
    var n := visited + 1;
    if path == [] {
      EmptyIsTidy(active);
    } else if shape.Annotated? {
      WalkedIsTidy(w, v, shape.inner, depth + 1, active, n, path);
    } else if shape.OneOf? {
      var (j, m) := AcceptedBranch(w, v, shape.branches, 0, depth + 1, active, n);
      WalkedIsTidy(w, v, shape.branches[j], depth + 1, active, m, path);
    } else if |path| > 1 {
      var work := WorkFor(w, v, shape);
      var inside := active + {work.id};
      var j: nat :| j < |work.items|
        && Walked(w, work.items[j], work.shapes[j], depth + 1, inside,
                  CountAt(w, work.items, work.shapes, 0, depth + 1, inside, n, j), path[1..]);
      WalkedIsTidy(w, work.items[j], work.shapes[j], depth + 1, inside,
                   CountAt(w, work.items, work.shapes, 0, depth + 1, inside, n, j), path[1..]);
      TidyCons(path, active);
    } else {
      EmptyIsTidy(active + {path[0]});
      TidyCons(path, active);
    }
  }

  // ------------------------------------------------------------------ shapes that look into everything

  lemma {:induction false} AcceptedIsInner(w: World, v: Value, s: Shape, id: Id)
    requires Deep(s) && !s.Annotated? && !s.OneOf? && v == Ref(id) && id in w.heap
    ensures WorkFor(w, v, s) != Leaf(true)
  {
  }

  /** Under shapes that look into containers, every path of the graph is walked. */
  lemma {:induction false} DeepWalksEverything(w: World, v: Value, shape: Shape, depth: nat, active: set<Id>, visited: nat,
                                               path: seq<Id>)
    requires depth <= MAX_DEPTH + 1 && DeepWorld(w) && Deep(shape)
    requires Visit(w, v, shape, depth, active, visited).0 && IsPath(w.heap, v, path)
    ensures Walked(w, v, shape, depth, active, visited, path)
    decreases 2 * (MAX_DEPTH + 2 - depth)
  {
    var n := visited + 1;
    if path == [] {
    } else if shape.Annotated? {
      DeepWalksEverything(w, v, shape.inner, depth + 1, active, n, path);
    } else if shape.OneOf? {
      var (j, m) := AcceptedBranch(w, v, shape.branches, 0, depth + 1, active, n);
      DeepWalksEverything(w, v, shape.branches[j], depth + 1, active, m, path);
    } else {
      var work := WorkFor(w, v, shape);
      AcceptedIsInner(w, v, shape, path[0]);
      if |path| > 1 {
        var c :| c in Children(w.heap[path[0]]) && IsPath(w.heap, c, path[1..]);
        assert c == Ref(path[1..][0]);
        WorkCoversChildren(w, v, shape, c);
        WorkIsDeep(w, v, shape);
        var j: nat :| j < |work.items| && work.items[j] == c;
        assert work.shapes[j] in work.shapes;
        DeepWalksEverything(w, work.items[j], work.shapes[j], depth + 1, active + {work.id},
                            CountAt(w, work.items, work.shapes, 0, depth + 1, active + {work.id}, n, j), path[1..]);
      }
    }
  }

  /** An accepted graph is acyclic, at most 65 containers deep, and was decided within 8192 visits. */
  lemma {:induction false} AcceptedGraphIsTidy(w: World, v: Value, shape: Shape, path: seq<Id>)
    requires DeepWorld(w) && Deep(shape) && Visit(w, v, shape, 0, {}, 0).0 && IsPath(w.heap, v, path)
    ensures |path| <= MAX_DEPTH + 1 && Tidy(path, {})
    ensures Visit(w, v, shape, 0, {}, 0).1 <= MAX_NODES
  {
    DeepWalksEverything(w, v, shape, 0, {}, 0, path);
    WalkedIsTidy(w, v, shape, 0, {}, 0, path);
    AcceptedWithinBudget(w, v, shape, 0, {}, 0);
  }

  // ------------------------------------------------------------------ bare types

  /** A container of the given class and another object that hold each other. */
  function Knot(t: Tag): World
    requires !Atomic(t)
  {
    var first := match t
      case DictTag => Dict([Str("k")], [Ref(1)])
      case ListTag => List([Ref(1)])
      case TupleTag => Tuple([Ref(1)])
      case SetTag => Set([Ref(1)])
      case FrozenSetTag => FrozenSet([Ref(1)])
      case ClassTag(className) => Object(className, [Ref(1)]);
    // What sets hold must be hashable, which lists are not.
    var second := if t == SetTag || t == FrozenSetTag then Object("Node", [Ref(0)]) else List([Ref(0)]);
    World(map[0 := first, 1 := second], map[])
  }

  lemma {:induction false} KnotIsCyclic(t: Tag)
    requires !Atomic(t)
    ensures IsPath(Knot(t).heap, Ref(0), [0, 1, 0]) && !Tidy([0, 1, 0], {})
  {
    var heap := Knot(t).heap;
    var held := Children(heap[0]);
    assert Ref(1) in held by { assert held[|held| - 1] == Ref(1); }
    assert Ref(0) in Children(heap[1]) by { assert Children(heap[1])[0] == Ref(0); }
    assert [0, 1, 0][1..] == [1, 0] && [1, 0][1..] == [0];
    assert IsPath(heap, Ref(0), [0]);
    assert IsPath(heap, Ref(1), [1, 0]);
    assert [0, 1, 0][0] == [0, 1, 0][2];
  }

  /** Compared by exact type alone, a container in a cycle is accepted; looked into, it is not. */
  lemma {:induction false} BareTypeAcceptsCycle(t: Tag)
    requires !Atomic(t)
    ensures var w := Knot(t);
            && Visit(w, Ref(0), Exactly(t), 0, {}, 0) == (true, 1)
            && IsPath(w.heap, Ref(0), [0, 1, 0]) && !Tidy([0, 1, 0], {})
            && !Visit(w, Ref(0), Anything, 0, {}, 0).0
  {
    KnotIsCyclic(t);
    CycleIsRefused(Knot(t), Ref(0), Anything, [0, 1, 0]);
  }

  /** Shapes that look into containers refuse every value from which a cycle can be reached. */
  lemma {:induction false} CycleIsRefused(w: World, v: Value, s: Shape, path: seq<Id>)
    requires DeepWorld(w) && Deep(s) && IsPath(w.heap, v, path) && !Tidy(path, {})
    ensures !Visit(w, v, s, 0, {}, 0).0
  {
    if Visit(w, v, s, 0, {}, 0).0 {
      AcceptedGraphIsTidy(w, v, s, path);
      assert false;
    }
  }

  ghost predicate AcceptsOnlyTidy(s: Shape) {
    forall w: World, v: Value, path: seq<Id> ::
      Visit(w, v, s, 0, {}, 0).0 && IsPath(w.heap, v, path) ==> Tidy(path, {})
  }

  lemma {:induction false} AtomicHasNoPath(w: World, v: Value, t: Tag, path: seq<Id>)
    requires Atomic(t) && Visit(w, v, Exactly(t), 0, {}, 0).0 && IsPath(w.heap, v, path)
    ensures path == []
  {
  }

  /** Comparing by exact type is safe exactly for the classes whose instances hold no further value. */
  lemma {:induction false} BareTypeIsSafeExactlyWhen(t: Tag)
    ensures AcceptsOnlyTidy(Exactly(t)) <==> Atomic(t)
  {
    if Atomic(t) {
      forall w: World, v: Value, path: seq<Id> | Visit(w, v, Exactly(t), 0, {}, 0).0 && IsPath(w.heap, v, path)
        ensures Tidy(path, {})
      {
        AtomicHasNoPath(w, v, t, path);
      }
    } else {
      BareTypeAcceptsCycle(t);
    }
  }

  /** A model class of linked nodes: one field, a further node or nothing. */
  function Chain(className: string, next: Value): World {
    World(map[0 := Instance(className, true, [next], true)],
          map[className := [OneOf([Model(className), Exactly(NoneTag)])]])
  }

  /** A bare model class is looked into: a node that ends the chain is accepted, one that is its own
      successor is refused. */
  lemma {:induction false} ModelRefusesCycle(className: string)
    ensures Visit(Chain(className, NoneValue), Ref(0), Model(className), 0, {}, 0) == (true, 4)
    ensures IsPath(Chain(className, Ref(0)).heap, Ref(0), [0, 0]) && !Tidy([0, 0], {})
    ensures !Visit(Chain(className, Ref(0)), Ref(0), Model(className), 0, {}, 0).0
  {
    var w, link := Chain(className, Ref(0)), OneOf([Model(className), Exactly(NoneTag)]);
    assert Deep(link) && w.fields[className] == [link];
    assert Ref(0) in Children(w.heap[0]) by { assert Children(w.heap[0])[0] == Ref(0); }
    assert [0, 0][1..] == [0] && [0, 0][0] == [0, 0][1];
    assert IsPath(w.heap, Ref(0), [0]);
    CycleIsRefused(w, Ref(0), Model(className), [0, 0]);
    ChainEnds(className);
  }

  lemma {:induction false} ChainEnds(className: string)
    ensures Visit(Chain(className, NoneValue), Ref(0), Model(className), 0, {}, 0) == (true, 4)
  {
    var w, branches := Chain(className, NoneValue), [Model(className), Exactly(NoneTag)];
    assert Visit(w, NoneValue, branches[0], 2, {0}, 2) == (false, 3);
    assert Visit(w, NoneValue, branches[1], 2, {0}, 3) == (true, 4);
    assert BranchesFrom(w, NoneValue, branches, 1, 2, {0}, 3) == (true, 4);
    assert BranchesFrom(w, NoneValue, branches, 0, 2, {0}, 2) == (true, 4);
    assert Visit(w, NoneValue, OneOf(branches), 1, {0}, 1) == (true, 4);
    assert VisitFrom(w, [NoneValue], [OneOf(branches)], 1, 1, {0}, 4) == (true, 4);
    assert VisitFrom(w, [NoneValue], [OneOf(branches)], 0, 1, {0}, 1) == (true, 4);
    assert {} + {0} == {0};
  }

  // ------------------------------------------------------------------ what the checker decides

  /** The value has the shape, at most 64 levels below the root, and no container occurs inside itself. */
  ghost predicate Conforms(w: World, v: Value, s: Shape, depth: nat, active: set<Id>)
    decreases 66 - depth, 1
  {
    && depth <= 64
    && match s
       case Annotated(inner) => Conforms(w, v, inner, depth + 1, active)
       case OneOf(branches) => exists b :: b in branches && Conforms(w, v, b, depth + 1, active)
       case Literals(literals) => v in literals
       case Exactly(tag) => HasClass(w, v, tag)
       case Anything =>
         if v.Ref? then v.id in w.heap && v.id !in active && ContainerConforms(w, v.id, s, depth, active)
         else !v.Other? && (v.Float? ==> v.finite)
       case _ => v.Ref? && v.id in w.heap && v.id !in active && ContainerConforms(w, v.id, s, depth, active)
  }

  /** Of containers any shape takes string-keyed dictionaries and lists, the others their own kind, a model class
      its own instances with just its fields and passing its validators; and what they hold conforms in turn. */
  ghost predicate ContainerConforms(w: World, id: Id, s: Shape, depth: nat, active: set<Id>)
    requires depth <= 64 && id in w.heap
    decreases 66 - depth, 0
  {
    var o, deeper := w.heap[id], active + {id};
    match s
    case Anything =>
      if o.List? then forall x :: x in o.items ==> Conforms(w, x, Anything, depth + 1, deeper)
      else
        && o.Dict? && |o.keys| == |o.values| && (forall k :: k in o.keys ==> k.Str?)
        && forall x :: x in o.values ==> Conforms(w, x, Anything, depth + 1, deeper)
    case Model(c) =>
      && o.Instance? && o.className == c && o.exact && o.valid && c in w.fields && |w.fields[c]| == |o.fields|
      && forall i :: 0 <= i < |o.fields| ==> Conforms(w, o.fields[i], w.fields[c][i], depth + 1, deeper)
    case ListOf(x) => o.List? && forall v :: v in o.items ==> Conforms(w, v, x, depth + 1, deeper)
    case SetOf(x) => o.Set? && forall v :: v in o.items ==> Conforms(w, v, x, depth + 1, deeper)
    case FrozenSetOf(x) => o.FrozenSet? && forall v :: v in o.items ==> Conforms(w, v, x, depth + 1, deeper)
    case TupleAny(x) => o.Tuple? && forall v :: v in o.items ==> Conforms(w, v, x, depth + 1, deeper)
    case TupleOf(parts) =>
      o.Tuple? && |o.items| == |parts| && forall i :: 0 <= i < |parts| ==> Conforms(w, o.items[i], parts[i], depth + 1, deeper)
    case DictOf(k, x) =>
      && o.Dict? && |o.keys| == |o.values|
      && (forall v :: v in o.keys ==> Conforms(w, v, k, depth + 1, deeper))
      && (forall v :: v in o.values ==> Conforms(w, v, x, depth + 1, deeper))
    case _ => false
  }

  /** The value's class is the one the tag names; model classes are named by no tag. */
  predicate HasClass(w: World, v: Value, t: Tag) {
    match v
    case Str(_) => t == StrTag
    case IntValue(_) => t == IntTag
    case BoolValue(_) => t == BoolTag
    case NoneValue => t == NoneTag
    case Float(_) => t == FloatTag
    case Other(className) => t == LeafTag(className)
    case Ref(id) =>
      id in w.heap &&
      match w.heap[id]
      case Dict(_, _) => t == DictTag
      case List(_) => t == ListTag
      case Tuple(_) => t == TupleTag
      case Set(_) => t == SetTag
      case FrozenSet(_) => t == FrozenSetTag
      case Instance(_, _, _, _) => false
      case Object(className, _) => t == ClassTag(className)
  }

  /** Every item has its shape. */
  ghost predicate AllConform(w: World, items: seq<Value>, shapes: seq<Shape>, depth: nat, active: set<Id>)
    requires |items| == |shapes|
  {
    forall i :: 0 <= i < |items| ==> Conforms(w, items[i], shapes[i], depth, active)
  }

  lemma {:induction false} StringKeysAll(keys: seq<Value>)
    ensures StringKeys(keys) == |keys| <==> forall k :: k in keys ==> k.Str?
  {
    if keys != [] {
      StringKeysAll(keys[1..]);
      assert keys == [keys[0]] + keys[1..];
    }
  }

  lemma {:induction false} SameConforms(w: World, items: seq<Value>, x: Shape, depth: nat, active: set<Id>)
    ensures AllConform(w, items, Same(x, |items|), depth, active) <==> forall v :: v in items ==> Conforms(w, v, x, depth, active)
  {
    hide Conforms;
    if AllConform(w, items, Same(x, |items|), depth, active) {
      forall v | v in items ensures Conforms(w, v, x, depth, active) {
        var i :| 0 <= i < |items| && items[i] == v;
        assert Conforms(w, items[i], Same(x, |items|)[i], depth, active);
      }
    }
    if forall v :: v in items ==> Conforms(w, v, x, depth, active) {
      forall i | 0 <= i < |items| ensures Conforms(w, items[i], Same(x, |items|)[i], depth, active) {
        assert items[i] in items;
      }
    }
  }

  lemma {:induction false} InterleaveConforms(w: World, a: seq<Value>, b: seq<Value>, x: Shape, y: Shape, depth: nat, active: set<Id>)
    requires |a| == |b|
    ensures AllConform(w, Interleave(a, b), Interleave(Same(x, |a|), Same(y, |a|)), depth, active) <==>
              && (forall v :: v in a ==> Conforms(w, v, x, depth, active))
              && (forall v :: v in b ==> Conforms(w, v, y, depth, active))
  {
    hide Conforms;
    var items, shapes := Interleave(a, b), Interleave(Same(x, |a|), Same(y, |a|));
    if AllConform(w, items, shapes, depth, active) {
      forall i | 0 <= i < |a|
        ensures Conforms(w, a[i], x, depth, active) && Conforms(w, b[i], y, depth, active)
      {
        InterleaveMember(a, b, i);
        InterleaveMember(Same(x, |a|), Same(y, |a|), i);
        assert Conforms(w, items[2 * i], shapes[2 * i], depth, active);
        assert Conforms(w, items[2 * i + 1], shapes[2 * i + 1], depth, active);
      }
    }
    if (forall v :: v in a ==> Conforms(w, v, x, depth, active)) && (forall v :: v in b ==> Conforms(w, v, y, depth, active)) {
      forall i | 0 <= i < |items| ensures Conforms(w, items[i], shapes[i], depth, active) {
        assert items[i] == if i % 2 == 0 then a[i / 2] else b[i / 2];
        assert shapes[i] == if i % 2 == 0 then x else y;
      }
    }
  }

  /** What the work at a container comes to. */
  ghost predicate WorkDone(w: World, work: Work, depth: nat, active: set<Id>)
    requires work.Inner? && |work.items| == |work.shapes|
  {
    work.after && AllConform(w, work.items, work.shapes, depth + 1, active + {work.id})
  }

  lemma {:induction false} AnyConforms(w: World, id: Id, depth: nat, active: set<Id>)
    requires depth <= 64 && id in w.heap
    ensures var work := AnyWork(w, Ref(id));
            ContainerConforms(w, id, Anything, depth, active) <==> work.Inner? && WorkDone(w, work, depth, active)
  {
    hide Conforms, AllConform;
    var o := w.heap[id];
    if o.List? {
      SameConforms(w, o.items, Anything, depth + 1, active + {id});
    }
    if o.Dict? && |o.keys| == |o.values| {
      StringKeysAll(o.keys);
      var k := StringKeys(o.keys);
      SameConforms(w, o.values[..k], Anything, depth + 1, active + {id});
      if k == |o.keys| { assert o.values[..k] == o.values; }
    }
  }

  lemma {:induction false} ShapeConforms(w: World, id: Id, s: Shape, depth: nat, active: set<Id>)
    requires depth <= 64 && id in w.heap && !s.Anything?
    ensures var work := ContainerWork(w, id, s);
            ContainerConforms(w, id, s, depth, active) <==> work.Inner? && WorkDone(w, work, depth, active)
    ensures ContainerWork(w, id, s).Leaf? ==> !ContainerWork(w, id, s).ok
  {
    hide Conforms;
    var o, deeper := w.heap[id], active + {id};
    match s
    case ListOf(x) => if o.List? { SameConforms(w, o.items, x, depth + 1, deeper); }
    case SetOf(x) => if o.Set? { SameConforms(w, o.items, x, depth + 1, deeper); }
    case FrozenSetOf(x) => if o.FrozenSet? { SameConforms(w, o.items, x, depth + 1, deeper); }
    case TupleAny(x) => if o.Tuple? { SameConforms(w, o.items, x, depth + 1, deeper); }
    case DictOf(k, x) =>
      if o.Dict? && |o.keys| == |o.values| { InterleaveConforms(w, o.keys, o.values, k, x, depth + 1, deeper); }
    case _ =>
  }

  /** One level: the shape asks for exactly the work a visit does. */
  lemma {:induction false} WorkConforms(w: World, v: Value, s: Shape, depth: nat, active: set<Id>)
    requires depth <= 64 && !s.Annotated? && !s.OneOf?
    ensures var work := WorkFor(w, v, s);
            match work
            case Leaf(ok) => Conforms(w, v, s, depth, active) <==> ok
            case Inner(id, items, shapes, after) =>
              Conforms(w, v, s, depth, active) <==>
                id !in active && after && AllConform(w, items, shapes, depth + 1, active + {id})
  {
    hide ContainerConforms, ContainerWork, AllConform;
    if v.Ref? && v.id in w.heap {
      if s.Anything? { AnyConforms(w, v.id, depth, active); } else { ShapeConforms(w, v.id, s, depth, active); }
    }
    if s.Anything? && v.Ref? && v.id in w.heap { AnyLeafRefused(w, v.id); }
  }

  lemma {:induction false} AnyLeafRefused(w: World, id: Id)
    ensures AnyWork(w, Ref(id)).Leaf? ==> !AnyWork(w, Ref(id)).ok
  {
  }

  /** The checker accepts exactly the values that have the shape, unless the visits run out. */
  lemma {:induction false} AcceptsExactlyWhen(w: World, v: Value, s: Shape, depth: nat, active: set<Id>, visited: nat)
    requires depth <= MAX_DEPTH + 1
    ensures var r := Visit(w, v, s, depth, active, visited);
            && (r.0 ==> Conforms(w, v, s, depth, active) && r.1 <= 8192)
            && (Conforms(w, v, s, depth, active) && r.1 <= 8192 ==> r.0)
            && visited < r.1
    decreases 2 * (MAX_DEPTH + 2 - depth), 0
  {
    hide VisitFrom, BranchesFrom, ContainerConforms, AllConform, WorkFor;
    var n := visited + 1;
    if depth <= MAX_DEPTH && n <= MAX_NODES {
      if s.Annotated? {
        AcceptsExactlyWhen(w, v, s.inner, depth + 1, active, n);
      } else if s.OneOf? {
        BranchesExactlyWhen(w, v, s.branches, 0, depth + 1, active, n);
        assert s.branches[0..] == s.branches;
      } else {
        WorkConforms(w, v, s, depth, active);
        WorkAccepts(w, v, s, depth, active, visited);
      }
    }
  }

  lemma {:induction false} WorkAccepts(w: World, v: Value, s: Shape, depth: nat, active: set<Id>, visited: nat)
    requires depth <= MAX_DEPTH && visited < MAX_NODES && !s.Annotated? && !s.OneOf?
    ensures var r, work := Visit(w, v, s, depth, active, visited), WorkFor(w, v, s);
            && visited < r.1
            && (work.Leaf? ==> r == (work.ok, visited + 1))
            && (work.Inner? ==>
                  var done := work.id !in active && work.after
                              && AllConform(w, work.items, work.shapes, depth + 1, active + {work.id});
                  (r.0 ==> done && r.1 <= 8192) && (done && r.1 <= 8192 ==> r.0))
    decreases 2 * (MAX_DEPTH + 2 - depth) - 1
  {
    hide VisitFrom, WorkFor, Conforms;
    var work := WorkFor(w, v, s);
    if work.Inner? && work.id !in active {
      AllExactlyWhen(w, work.items, work.shapes, 0, depth + 1, active + {work.id}, visited + 1);
    }
  }

  lemma {:induction false} AllExactlyWhen(w: World, items: seq<Value>, shapes: seq<Shape>, i: nat, depth: nat, active: set<Id>,
                                          visited: nat)
    requires depth <= MAX_DEPTH + 1 && i <= |items| == |shapes| && visited <= 8192
    ensures var r := VisitFrom(w, items, shapes, i, depth, active, visited);
            && (r.0 ==> (forall j :: i <= j < |items| ==> Conforms(w, items[j], shapes[j], depth, active)) && r.1 <= 8192)
            && ((forall j :: i <= j < |items| ==> Conforms(w, items[j], shapes[j], depth, active)) && r.1 <= 8192 ==> r.0)
            && visited <= r.1
    decreases 2 * (MAX_DEPTH + 2 - depth), |items| - i + 1
  {
    hide Conforms, Visit;
    if i < |items| {
      AcceptsExactlyWhen(w, items[i], shapes[i], depth, active, visited);
      var r := Visit(w, items[i], shapes[i], depth, active, visited);
      if r.0 { AllExactlyWhen(w, items, shapes, i + 1, depth, active, r.1); }
    }
  }

  lemma {:induction false} BranchesExactlyWhen(w: World, v: Value, branches: seq<Shape>, i: nat, depth: nat, active: set<Id>,
                                               visited: nat)
    requires depth <= MAX_DEPTH + 1 && i <= |branches| && visited <= 8192
    ensures var r := BranchesFrom(w, v, branches, i, depth, active, visited);
            && (r.0 ==> (exists b :: b in branches[i..] && Conforms(w, v, b, depth, active)) && r.1 <= 8192)
            && ((exists b :: b in branches[i..] && Conforms(w, v, b, depth, active)) && r.1 <= 8192 ==> r.0)
            && visited <= r.1
    decreases 2 * (MAX_DEPTH + 2 - depth), |branches| - i + 1
  {
    hide Conforms, Visit;
    if i < |branches| {
      AcceptsExactlyWhen(w, v, branches[i], depth, active, visited);
      var r := Visit(w, v, branches[i], depth, active, visited);
      assert branches[i..] == [branches[i]] + branches[i + 1..];
      if !r.0 {
        if r.1 <= 8192 {
          BranchesExactlyWhen(w, v, branches, i + 1, depth, active, r.1);
        } else {
          SpentCounterGrows(w, v, branches, i + 1, depth, active, r.1);
        }
      }
    }
  }

  lemma {:induction false} SpentCounterGrows(w: World, v: Value, branches: seq<Shape>, i: nat, depth: nat, active: set<Id>,
                                             visited: nat)
    requires depth <= MAX_DEPTH + 1 && i <= |branches| && visited >= MAX_NODES
    ensures var r := BranchesFrom(w, v, branches, i, depth, active, visited); !r.0 && r.1 >= visited
    decreases |branches| - i
  {
    if i < |branches| {
      SpentCounterGrows(w, v, branches, i + 1, depth, active, visited + 1);
    }
  }
}
