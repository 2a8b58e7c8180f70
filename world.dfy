/**
 * The tripleplay entity World as a class over mutable fields, proved to follow the transitions
 * of WorldSpec. The calls the World makes into systems, signals, entities and components are
 * appended to `trace`; what those calls do in turn (enqueue entities), while a queue is drained
 * and while each system updates, is the `Reactions` value passed to `Update`.
 */
module EntityWorld {
  import opened Wrappers
  import opened WorldSpec

  /** Where register(System) inserts: scan down from the tail, stop at the first system whose
      priority is at least `priority` and insert just after it; insert at the front when the
      scan finds none. */
  method FindInsertIndex(systems: seq<System>, priority: int) returns (idx: nat)
    ensures idx == InsertIndex(systems, priority)
  {
    idx := 0;
    var ii := |systems| - 1;
    while ii >= 0
      invariant -1 <= ii < |systems|
      invariant InsertFrom(systems, priority, ii) == InsertIndex(systems, priority)
      decreases ii + 1
    {
      if systems[ii].priority >= priority {
        idx := ii + 1;
        return;
      }
      ii := ii - 1;
    }
  }

  /** The entity iterator's search: the first slot at or after `idx` that is non-null and not
      destroyed, or -1. */
  method FindNext(entities: array<Slot>, idx: nat) returns (r: int)
    ensures r == NextLive(entities[..], idx)
  {
    var i := idx;
    while i < entities.Length
      invariant idx <= i
      invariant NextLive(entities[..], i) == NextLive(entities[..], idx)
      decreases entities.Length - i
    {
      if IsLive(entities[i]) {
        return i;
      }
      i := i + 1;
    }
    return -1;
  }

  /** The array java.lang.System.arraycopy fills when the table doubles: the old slots, then
      null slots. */
  method Grow(entities: array<Slot>) returns (grown: array<Slot>)
    ensures fresh(grown)
    ensures grown[..] == entities[..] + seq(entities.Length, _ => Empty)
  {
    grown := new Slot[entities.Length * 2](_ => Empty);
    var i := 0;
    while i < entities.Length
      invariant 0 <= i <= entities.Length
      invariant forall k :: 0 <= k < i ==> grown[k] == entities[k]
      invariant forall k :: entities.Length <= k < grown.Length ==> grown[k] == Empty
      modifies grown
    {
      grown[i] := entities[i];
      i := i + 1;
    }
  }

  class World {
    var entities: array<Slot>      // _entities
    var ids: seq<nat>              // _ids
    var nextEntityId: nat          // _nextEntityId
    var systems: seq<System>       // _systems
    var comps: seq<Component>      // _comps
    var toAdd: seq<nat>
    var toChange: seq<nat>
    var toRemove: seq<nat>
    var trace: seq<Event>          // the calls made into collaborators so far

    ghost function State(): WorldState
      reads this, entities
    {
      WorldState(entities[..], ids, nextEntityId, systems, comps, toAdd, toChange, toRemove)
    }

    /** The World's invariant, and its systems kept highest priority first. */
    ghost predicate Valid()
      reads this, entities
    {
      Inv(State()) && NonIncreasing(systems)
    }

    constructor()
      ensures Valid() && State() == Initial() && trace == [] && fresh(entities)
    {
      entities := new Slot[InitialCapacity](_ => Empty);
      ids, nextEntityId := [], 1;
      systems, comps := [], [];
      toAdd, toChange, toRemove := [], [], [];
      trace := [];
    }

    /** World.create: reuse the most recently pooled id, or hand out the next one, doubling the
        table when it does not fit; then enable the entity if asked to. */
    method Create(enabled: bool) returns (e: Entity)
      requires Valid()
      modifies this, entities
      ensures (State(), e.id) == WorldSpec.Create(old(State()), enabled)
      ensures Valid()
      ensures entities[e.id] == Occupied(e)
      ensures entities == old(entities) || fresh(entities)
      ensures trace == old(trace)
    {
      ghost var s0 := State();
      var id: nat;
      if |ids| == 0 {
        id := nextEntityId;
        nextEntityId := nextEntityId + 1;
        if entities.Length <= id {
          entities := Grow(entities);
        }
        entities[id] := Occupied(Fresh(id));
      } else {
        id := ids[|ids| - 1];
        assert id in ids;
        AllocatedPrefix(ids, |ids| - 1, nextEntityId);
        ids := ids[..|ids| - 1];
        entities[id] := Occupied(Reset(entities[id].entity));
      }
      assert (State(), id) == Obtain(s0);
      if enabled {
        // Entity.setEnabled(true)
        entities[id] := Occupied(entities[id].entity.(enabled := true));
        toAdd := toAdd + [id];
      }
      e := entities[id].entity;
    }

    /** World.entity: the slot at `id`, null included; an id outside the table throws. */
    method EntityAt(id: int) returns (r: Result<Slot, Thrown>)
      requires Valid()
      ensures r.Success? <==> 0 <= id < |State().slots|
      ensures r.Success? ==> r.value == State().slots[id]
      ensures r.Failure? ==> r.error == IndexOutOfBounds
      ensures r.Success? && r.value.Occupied? ==> r.value.entity.id == id && 0 < id < nextEntityId
    {
      if 0 <= id < entities.Length {
        r := Success(entities[id]);
      } else {
        r := Failure(IndexOutOfBounds);
      }
    }

    /** World.entities: an iterator over the live entities. */
    method Entities() returns (it: EntityIterator)
      ensures fresh(it) && it.world == this
      ensures it.Valid() && it.Yields() == LiveFrom(entities[..], 0)
    {
      it := new EntityIterator(this);
    }

    /** The inner loop over the systems: hook `h` called on each, in list order. */
    method BroadcastTo(h: Hook)
      modifies this
      ensures trace == old(trace) + Broadcast(systems, h)
      ensures entities == old(entities) && ids == old(ids) && nextEntityId == old(nextEntityId)
      ensures systems == old(systems) && comps == old(comps)
      ensures toAdd == old(toAdd) && toChange == old(toChange) && toRemove == old(toRemove)
    {
      var ss := 0;
      while ss < |systems|
        invariant 0 <= ss <= |systems|
        invariant trace == old(trace) + Broadcast(systems[..ss], h)
        invariant entities == old(entities) && ids == old(ids) && nextEntityId == old(nextEntityId)
        invariant systems == old(systems) && comps == old(comps)
        invariant toAdd == old(toAdd) && toChange == old(toChange) && toRemove == old(toRemove)
      {
        assert systems[..ss + 1][..ss] == systems[..ss];
        trace := trace + [Call(systems[ss], h)];
        ss := ss + 1;
      }
      assert systems[..ss] == systems;
    }

    /** The clean-up loop for a destroyed entity: Component.remove for every registered
        component whose bit the entity carries. */
    method RemoveComponents(e: Entity)
      modifies this
      ensures trace == old(trace) + Strip(|comps|, e.comps, e.id)
      ensures entities == old(entities) && ids == old(ids) && nextEntityId == old(nextEntityId)
      ensures systems == old(systems) && comps == old(comps)
      ensures toAdd == old(toAdd) && toChange == old(toChange) && toRemove == old(toRemove)
    {
      var cc := 0;
      while cc < |comps|
        invariant 0 <= cc <= |comps|
        invariant trace == old(trace) + Strip(cc, e.comps, e.id)
        invariant entities == old(entities) && ids == old(ids) && nextEntityId == old(nextEntityId)
        invariant systems == old(systems) && comps == old(comps)
        invariant toAdd == old(toAdd) && toChange == old(toChange) && toRemove == old(toRemove)
      {
        if cc in e.comps {
          trace := trace + [ComponentRemoved(cc, e.id)];
        }
        cc := cc + 1;
      }
    }

    /** The body of a drain loop for one dequeued entity: the note, the systems, the signal,
        and in the remove phase the clean-up and pooling of a destroyed entity. */
    method Dispatch(p: Phase, id: nat)
      requires id < entities.Length && entities[id].Occupied? && entities[id].entity.id == id
      modifies this
      ensures trace == old(trace) + Record(p, systems, comps, EntityOf(old(State()), id))
      ensures ids == old(ids) + if p == RemovePhase && EntityOf(old(State()), id).destroyed then [id] else []
      ensures entities == old(entities) && nextEntityId == old(nextEntityId)
      ensures systems == old(systems) && comps == old(comps)
      ensures toAdd == old(toAdd) && toChange == old(toChange) && toRemove == old(toRemove)
    {
      var e := entities[id].entity;
      assert e == EntityOf(State(), id);
      ghost var t0 := trace;
      match p {
        case AddPhase => trace := trace + [NoteAdded(id)];
        case ChangePhase => trace := trace + [ClearChanging(id)];
        case RemovePhase =>
      }
      assert trace == t0 + PreEvents(p, id);
      BroadcastTo(EntityHook(p, id));
      trace := trace + [Emitted(p, id)];
      ghost var t1 := trace;
      if p == RemovePhase && e.destroyed {
        RemoveComponents(e);
        ids := ids + [id];
      }
      assert trace == t1 + Cleanup(p, comps, e);
      RecordAssembled(t0, p, systems, comps, e);
    }

    /** One iteration of the drain loop for queue `p`: remove its tail, dispatch that entity, and
        let the hooks append `c`. */
    method DrainOne(p: Phase, c: Cascade)
      requires CanStep(State(), p)
      modifies this
      ensures entities == old(entities)
      ensures State() == Step(old(State()), p, c)
      ensures trace == old(trace) + Dispatched(old(State()), p)
    {
      var q := match p case AddPhase => toAdd case ChangePhase => toChange case RemovePhase => toRemove;
      var id := q[|q| - 1];
      match p {
        case AddPhase => toAdd := q[..|q| - 1];
        case ChangePhase => toChange := q[..|q| - 1];
        case RemovePhase => toRemove := q[..|q| - 1];
      }
      Dispatch(p, id);
      toAdd := toAdd + c.adds;
      toChange := toChange + c.changes;
      toRemove := toRemove + c.removes;
    }

    /** The drain loop for queue `p` after `k` of its iterations, started from state `s0` with
        trace `t0`. */
    ghost predicate Drained(s0: WorldState, t0: seq<Event>, p: Phase, plan: seq<Cascade>, k: nat)
      reads this, entities
    {
      && Inv(s0) && PlanOk(plan, s0.nextId) && k <= |Queue(s0, p)|
      && State() == PhaseAfter(s0, p, k, plan)
      && trace == t0 + Log(s0, p, Dequeued(Queue(s0, p), plan, p, k))
    }

    /** The k-th iteration of the drain loop for queue `p`, the hooks enqueueing `plan[k]`. */
    method DrainNext(ghost s0: WorldState, ghost t0: seq<Event>, p: Phase, plan: seq<Cascade>, k: nat)
      requires Drained(s0, t0, p, plan, k) && k < |Queue(s0, p)|
      modifies this
      ensures Drained(s0, t0, p, plan, k + 1) && entities == old(entities)
    {
      TailNamed(s0, p, k, plan);
      IterationStep(s0, p, k, plan, t0, trace);
      DrainOne(p, Reaction(plan, k));
    }

    /** One drain loop of World.update: exactly as many iterations as queue `p` holds when the
        loop starts, counting down as the source does. */
    method DrainPhase(p: Phase, plan: seq<Cascade>)
      requires Valid() && PlanOk(plan, nextEntityId)
      modifies this
      ensures Valid() && entities == old(entities)
      ensures State() == Drain(old(State()), p, plan)
      ensures trace == old(trace) + DrainLog(old(State()), p, plan)
    {
      ghost var s0, t0 := State(), trace;
      var n := |match p case AddPhase => toAdd case ChangePhase => toChange case RemovePhase => toRemove|;
      var ii := n - 1;
      var k := 0;
      PhaseAfterZero(s0, p, plan);
      while ii >= 0
        invariant -1 <= ii < n && k == n - 1 - ii && n == |Queue(s0, p)|
        invariant entities == old(entities)
        invariant Drained(s0, t0, p, plan, k)
        decreases ii + 1
      {
        DrainNext(s0, t0, p, plan, k);
        ii, k := ii - 1, k + 1;
      }
      assert k == n;
      PhaseAfterAll(s0, p, plan, k);
    }

    /** The last loop of World.update: each system updated in list order, enqueueing `plan[k]`
        while the k-th one runs. */
    method UpdateSystems(delta: int, plan: seq<Cascade>)
      requires Valid() && PlanOk(plan, nextEntityId)
      modifies this
      ensures Valid() && entities == old(entities) && systems == old(systems)
      ensures State() == Updated(old(State()), plan, |systems|)
      ensures trace == old(trace) + Broadcast(systems, UpdateHook(delta))
    {
      ghost var s0 := State();
      var ii := 0;
      while ii < |systems|
        invariant 0 <= ii <= |systems|
        invariant entities == old(entities) && systems == old(systems)
        invariant State() == Updated(s0, plan, ii)
        invariant trace == old(trace) + Broadcast(systems[..ii], UpdateHook(delta))
      {
        assert systems[..ii + 1][..ii] == systems[..ii];
        trace := trace + [Call(systems[ii], UpdateHook(delta))];
        var c := Reaction(plan, ii);
        toAdd, toChange, toRemove := toAdd + c.adds, toChange + c.changes, toRemove + c.removes;
        ii := ii + 1;
      }
      assert systems[..ii] == systems;
      UpdatedInv(s0, plan, ii);
    }

    /** World.update: drain the additions, the changes and the removals, then update every
        system in list order. */
    method Update(delta: int, reactions: Reactions)
      requires Valid() && ReactionsOk(reactions, nextEntityId)
      modifies this
      ensures Valid() && entities == old(entities)
      ensures State() == Tick(old(State()), reactions)
      ensures trace == old(trace) + TickLog(old(State()), delta, reactions)
    {
      ghost var s0, t0 := State(), trace;
      DrainPhase(AddPhase, reactions.onAdd);
      DrainKeeps(s0, AddPhase, reactions.onAdd);
      ghost var s1, t1 := State(), trace;
      DrainPhase(ChangePhase, reactions.onChange);
      DrainKeeps(s1, ChangePhase, reactions.onChange);
      ghost var s2, t2 := State(), trace;
      DrainPhase(RemovePhase, reactions.onRemove);
      DrainKeeps(s2, RemovePhase, reactions.onRemove);
      ghost var s3 := State();
      assert s3 == Drain(Drain(Drain(s0, AddPhase, reactions.onAdd), ChangePhase, reactions.onChange),
        RemovePhase, reactions.onRemove);
      assert systems == s0.systems && nextEntityId == s0.nextId;
      UpdateSystems(delta, reactions.onUpdate);
      assert State() == Updated(s3, reactions.onUpdate, |s0.systems|);
      AppendFour(t0, DrainLog(s0, AddPhase, reactions.onAdd), DrainLog(s1, ChangePhase, reactions.onChange),
        DrainLog(s2, RemovePhase, reactions.onRemove), Broadcast(s0.systems, UpdateHook(delta)));
    }

    /** World.paint: every system painted, in list order; nothing else changes. */
    method Paint(clock: int)
      requires Valid()
      modifies this
      ensures Valid()
      ensures trace == old(trace) + Broadcast(systems, PaintHook(clock))
      ensures entities == old(entities) && ids == old(ids) && nextEntityId == old(nextEntityId)
      ensures systems == old(systems) && comps == old(comps)
      ensures toAdd == old(toAdd) && toChange == old(toChange) && toRemove == old(toRemove)
    {
      BroadcastTo(PaintHook(clock));
    }

    /** register(System): insert by priority; the index returned is the list size minus one. */
    method RegisterSystem(system: System) returns (index: nat)
      requires Valid()
      modifies this
      ensures Valid()
      ensures systems == Register(old(systems), system)
      ensures index == |old(systems)|
      ensures entities == old(entities) && ids == old(ids) && nextEntityId == old(nextEntityId)
      ensures comps == old(comps) && trace == old(trace)
      ensures toAdd == old(toAdd) && toChange == old(toChange) && toRemove == old(toRemove)
    {
      var idx := FindInsertIndex(systems, system.priority);
      RegisterInserts(systems, system);
      RegisterKeepsOrder(systems, system);
      systems := systems[..idx] + [system] + systems[idx..];
      index := |systems| - 1;
    }

    /** register(Component): append; the index returned is the component's position. */
    method RegisterComponent(component: Component) returns (index: nat)
      requires Valid()
      modifies this
      ensures Valid()
      ensures index == |old(comps)|
      ensures comps == old(comps) + [component] && comps[index] == component
      ensures entities == old(entities) && ids == old(ids) && nextEntityId == old(nextEntityId)
      ensures systems == old(systems) && trace == old(trace)
      ensures toAdd == old(toAdd) && toChange == old(toChange) && toRemove == old(toRemove)
    {
      comps := comps + [component];
      index := |comps| - 1;
    }
  }

  /** The iterator World.entities returns. It reads the World's table afresh on every call. */
  class EntityIterator {
    const world: World
    var nextIdx: int  // _nextIdx: the next live slot, or -1

    /** The iterator stands on the next live slot of the table, or on -1 when none is left. */
    ghost predicate Valid()
      reads this, world, world.entities
    {
      nextIdx == -1 || (0 <= nextIdx && NextLive(world.entities[..], nextIdx) == nextIdx)
    }

    /** The ids still to be yielded, in order. */
    ghost function Yields(): seq<nat>
      reads this, world, world.entities
    {
      if nextIdx < 0 then [] else LiveFrom(world.entities[..], nextIdx)
    }

    constructor(world: World)
      ensures this.world == world
      ensures Valid() && Yields() == LiveFrom(world.entities[..], 0)
    {
      this.world := world;
      new;
      nextIdx := FindNext(world.entities, 0);
      NextLiveHeads(world.entities[..], 0);
    }

    method HasNext() returns (b: bool)
      requires Valid()
      ensures b <==> Yields() != []
    {
      if nextIdx >= 0 {
        NextLiveHeads(world.entities[..], nextIdx);
      }
      b := nextIdx >= 0;
    }

    /** next(): the slot the iterator stands on, then move on to the next live one; with
        nothing left, the index -1 throws. */
    method Next() returns (r: Result<Slot, Thrown>)
      requires Valid()
      modifies this
      ensures Valid()
      ensures old(Yields()) == [] ==> r == Failure(IndexOutOfBounds) && nextIdx == old(nextIdx)
      ensures old(Yields()) != [] ==>
        && old(Yields())[0] < world.entities.Length
        && r == Success(world.entities[old(Yields())[0]])
        && r.value.Occupied? && !r.value.entity.destroyed
        && Yields() == old(Yields())[1..]
    {
      if nextIdx < 0 {
        return Failure(IndexOutOfBounds);
      }
      NextLiveHeads(world.entities[..], nextIdx);
      var next := world.entities[nextIdx];
      nextIdx := FindNext(world.entities, nextIdx + 1);
      NextLiveHeads(world.entities[..], old(nextIdx) + 1);
      r := Success(next);
    }

    /** remove() is not supported. */
    method Remove() returns (r: Thrown)
      ensures r == UnsupportedOperation
    {
      r := UnsupportedOperation;
    }
  }
}
