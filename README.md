# tripleplay entity World and Flump movie decoding, in Dafny

This project models two pieces of the tripleplay game library and proves what they promise.

**The entity World** (`tripleplay.entity.World`) is modelled in `world_spec.dfy` and `world.dfy`.
- A World owns five things:
  - a table of entity slots that doubles when an id does not fit;
  - a last-in-first-out pool of free ids;
  - the registered systems, kept in priority order;
  - the registered components;
  - three deferred queues (`toAdd`, `toChange`, `toRemove`), which `update` drains.
- `world_spec.dfy` (module `WorldSpec`) gives the World's state as a value.
  - It states the invariant `Inv`: ids `1 .. nextId-1` are allocated, and slot `i` holds the entity whose id is `i`.
  - It gives each operation as a transition on that state: `Create`, `Register`, and `Drain` and `Tick` for `update`.
- `world.dfy` (module `EntityWorld`) is the `World` class itself, with the source's fields. Its methods are proved to follow those transitions.
- The calls the World makes into systems, signals, entities and components are appended to a `trace` of `Event`s.
- What hooks do to the queues while one entity is being dispatched is a `Cascade` of ids. So is what one system's `update` enqueues. A `Reactions` value passed to `Update` supplies one per drain iteration and one per system update, so each contract holds for every sequence of existing ids the hooks and systems append to the queues.

**Flump movie decoding** (`tripleplay.flump.BinaryFlumpLoader`) is modelled in `flump.dfy` (module `FlumpLoader`).
- This is the part that turns the records read from `library.bin` into movie symbols.
- Each keyframe gains the frame index it starts on: the previous keyframe's index plus its duration, in Java's wrapping 32-bit `int` arithmetic.

**Priority order.** `register(System)` scans from the tail for the last system whose priority is at least the new one's, and inserts just after it.
- So the list is kept highest priority first, and ties stay in registration order. The class invariant `Valid()` includes this order.
- `WorldSpec.RegistrationExample` proves that registering priorities 5, 1, 5, 3 gives the order 5, 5, 3, 1.

`wrappers.dfy` holds the `Option` and `Result` types used for null values and thrown exceptions.

## Model

| member | source | states |
|---|---|---|
| `EntityWorld.World.constructor` | core/src/main/java/tripleplay/entity/World.java:184-193 | A new World satisfies the invariant: a newly allocated table of 64 null slots, first id 1, and nothing registered, pooled or queued. |
| `WorldSpec.Initial` | core/src/main/java/tripleplay/entity/World.java:184-193 | The initial state has 64 slots, all null, and next id 1. No system, component, pooled id or queued id exists, and `Inv` holds. |
| `WorldSpec.Obtain` | core/src/main/java/tripleplay/entity/World.java:49-60 | With an empty pool, the id handed out is the old counter and the counter goes up by one. Otherwise it is the pool's most recent id, and the pool loses exactly that entry. Either way the slot holds a fresh entity with that id, and the invariant is kept. |
| `WorldSpec.Create` | core/src/main/java/tripleplay/entity/World.java:47-63 | The id is never 0 and always fits the table. The table doubles exactly when the next id does not fit, and existing slots keep their contents. A recycled id leaves the counter and table size unchanged. Only an enabled entity is queued, for addition. Systems, components and the other queues are untouched, and the invariant is kept. |
| `EntityWorld.World.Create` | core/src/main/java/tripleplay/entity/World.java:47-63 | The class's new state and returned entity are exactly `WorldSpec.Create` of the old state, and the returned entity sits in its own slot. The trace is unchanged: `reset` and `setEnabled` are modelled as state updates (see Left out). |
| `EntityWorld.Grow` | core/src/main/java/tripleplay/entity/World.java:51-55 | The new table is fresh and twice as long. It holds the old slots in place, followed by null slots. |
| `EntityWorld.World.EntityAt` | core/src/main/java/tripleplay/entity/World.java:69-71 | It succeeds exactly when the id is inside the table and returns that slot. A non-null slot holds the entity with that id, which is allocated. An id outside the table throws an index-out-of-bounds failure. |
| `EntityWorld.World.Entities` | core/src/main/java/tripleplay/entity/World.java:76-95 | The iterator returned is fresh, bound to this World, and about to yield every live slot from index 0. |
| `EntityWorld.EntityIterator.constructor` | core/src/main/java/tripleplay/entity/World.java:93 | The first search starts at slot 0, so the iterator will yield exactly the live ids of the whole table. |
| `EntityWorld.EntityIterator.HasNext` | core/src/main/java/tripleplay/entity/World.java:79 | True exactly when something is left to yield. |
| `EntityWorld.EntityIterator.Next` | core/src/main/java/tripleplay/entity/World.java:80-84 | With something left, it returns the slot of the next id to yield, which is non-null and not destroyed, and drops that id from what is left. With nothing left, it throws index-out-of-bounds and moves nothing. |
| `EntityWorld.EntityIterator.Remove` | core/src/main/java/tripleplay/entity/World.java:78 | Always fails with an unsupported-operation failure. |
| `EntityWorld.FindNext` | core/src/main/java/tripleplay/entity/World.java:85-92 | The scan returns the first index at or after `idx` whose slot is non-null and not destroyed, or -1 when there is none. |
| `WorldSpec.NextLiveHeads` | core/src/main/java/tripleplay/entity/World.java:79-93 | The search returns -1 exactly when nothing is left to yield. Otherwise it returns the head of what is left, which is in range and live, and the rest is what a search just past it would yield. |
| `WorldSpec.LiveFromExactly` | core/src/main/java/tripleplay/entity/World.java:76-95 | The iterator yields only live slots at or after the start, every such slot, and each once in strictly increasing id order. |
| `EntityWorld.World.Update` | core/src/main/java/tripleplay/entity/World.java:100-151 | It drains additions, then changes, then removals, and then makes one update call per system in list order; each system may enqueue further entities for the next tick. The new state is `Tick` of the old one: the three drains followed by `Updated`. The invariant is kept whatever the hooks and systems enqueue, as long as the ids exist. |
| `EntityWorld.World.UpdateSystems` | core/src/main/java/tripleplay/entity/World.java:148-150 | One update call per system, in list order. After system k's call, the ids it enqueues are appended to the three queues, so the new state is `Updated` of the old one. The system list and the entity table stay the same, and the class invariant is kept. |
| `WorldSpec.UpdatedAppends` | core/src/main/java/tripleplay/entity/World.java:148-150 | After n system updates, each queue is its old contents followed by what systems 0 to n-1 enqueued on it, in that order. Table, id list, counter, systems and components are unchanged. |
| `WorldSpec.UpdatedInv` | core/src/main/java/tripleplay/entity/World.java:148-150 | System updates that enqueue only existing entities keep the World's invariant. |
| `WorldSpec.EnqueueInv` | core/src/main/java/tripleplay/entity/World.java:148-150 | Appending existing ids to the queues keeps the World's invariant. |
| `EntityWorld.World.DrainPhase` | core/src/main/java/tripleplay/entity/World.java:102-145 | A phase runs exactly as many iterations as its queue held at the start. It ends in `Drain` of the starting state, the calls made are that phase's log, and the invariant is kept. |
| `EntityWorld.World.DrainOne` | core/src/main/java/tripleplay/entity/World.java:103-144 | One iteration removes the queue's tail and dispatches that entity. The hooks' additions then land on the three queues, and the call is proved equal to `WorldSpec.Step`. |
| `EntityWorld.World.Dispatch` | core/src/main/java/tripleplay/entity/World.java:103-144 | For one dequeued entity, calls happen in this order: the add or change note, every system's hook in list order, the signal, and then, for a destroyed entity in the remove phase, component removal. The id goes back to the pool only in that last case. |
| `EntityWorld.World.BroadcastTo` | core/src/main/java/tripleplay/entity/World.java:110-112 | Exactly one call per system, in list order. Nothing but the trace changes. |
| `EntityWorld.World.RemoveComponents` | core/src/main/java/tripleplay/entity/World.java:140-142 | The calls made are `Strip` of the entity's component bits over the registered components. Nothing but the trace changes. |
| `WorldSpec.BroadcastCalls` | core/src/main/java/tripleplay/entity/World.java:110-112 | A broadcast has one call per system, and its k-th call goes to the k-th system. |
| `WorldSpec.StripExactly` | core/src/main/java/tripleplay/entity/World.java:139-142 | Clean-up calls remove on the entity for exactly the registered components whose bit it carries. Each such component gets one call, in registration order. |
| `WorldSpec.RecordSignals` | core/src/main/java/tripleplay/entity/World.java:109-113 | Dispatching one entity emits the phase's signal exactly once, for that entity. |
| `WorldSpec.LogSignals` | core/src/main/java/tripleplay/entity/World.java:113-137 | Over a sequence of dispatches, the signals emitted name exactly the dequeued entities, in dequeue order. |
| `WorldSpec.DrainDispatchesEachOnce` | core/src/main/java/tripleplay/entity/World.java:102-137 | A phase removes exactly as many entries as the queue held at the start and signals each removed entity once, in removal order. Afterwards, the queue is as long as what the hooks appended to it. No entry is dropped or duplicated: the entries removed plus those left are, as a multiset, the starting entries plus the appended ones. |
| `WorldSpec.RemainingLength` | core/src/main/java/tripleplay/entity/World.java:102-103 | After n iterations, the queue's length plus n equals its starting length plus what the hooks appended. |
| `WorldSpec.Conserved` | core/src/main/java/tripleplay/entity/World.java:102-103 | After any number of iterations, the entries removed plus those still queued are, as a multiset, the starting entries plus what the hooks appended. Nothing is dropped or duplicated, so an entry not removed in this phase is still queued and waits for the next tick. |
| `WorldSpec.RemainingKeepsUnreached` | core/src/main/java/tripleplay/entity/World.java:102-103 | After n iterations, the bottom |q| - n entries of the starting queue are still at the bottom of the queue, in order. When the hooks append to the queue being drained, this says nothing at the end of a phase; `WorldSpec.Conserved` covers that case. |
| `WorldSpec.DequeuedNewestFirst` | core/src/main/java/tripleplay/entity/World.java:117-118 | When the hooks append nothing to the queue being drained, n iterations remove its last n entries, newest first, and leave exactly the others. |
| `WorldSpec.PooledExactly` | core/src/main/java/tripleplay/entity/World.java:139-144 | After the remove phase, an id is in the pool exactly when it was there before or it was removed from the queue while destroyed. A merely disabled entity is not pooled. |
| `WorldSpec.PooledAllocated` | core/src/main/java/tripleplay/entity/World.java:143 | Returning ids to the pool keeps every pooled id allocated. |
| `WorldSpec.PhaseAfterInv` | core/src/main/java/tripleplay/entity/World.java:102-145 | After any number of iterations of any phase, the World's invariant still holds, provided the hooks enqueue only existing entities. |
| `WorldSpec.StepInv` | core/src/main/java/tripleplay/entity/World.java:103-144 | A single iteration keeps the World's invariant, provided the hooks enqueue only existing entities. |
| `EntityWorld.World.Paint` | core/src/main/java/tripleplay/entity/World.java:154-158 | One paint call per system, in list order. Table, pool, counter, registrations and queues are unchanged, and the class invariant is kept. |
| `EntityWorld.World.RegisterSystem` | core/src/main/java/tripleplay/entity/World.java:163-173 | The system list becomes `Register` of the old list, and the index returned is the old list's size. The class invariant, including the priority order, is kept. Nothing else changes. |
| `EntityWorld.FindInsertIndex` | core/src/main/java/tripleplay/entity/World.java:164-170 | The backward scan stops at `InsertIndex`. |
| `WorldSpec.InsertIndex` | core/src/main/java/tripleplay/entity/World.java:164-170 | The insertion index is within the list. The system before it has priority at least the new one's, and every system from it onwards has a lower priority. |
| `WorldSpec.RegisterInserts` | core/src/main/java/tripleplay/entity/World.java:171 | The list after registration is the old list with the new system spliced in at the insertion index. As a multiset it gains exactly that system. |
| `WorldSpec.RegisterKeepsOrder` | core/src/main/java/tripleplay/entity/World.java:163-173 | Registration keeps a non-increasing list non-increasing. The new system comes after every system of priority at least its own and before every lower one. |
| `WorldSpec.RegistrationExample` | core/src/main/java/tripleplay/entity/World.java:163-173 | Registering priorities 5, 1, 5, 3 gives the order 5, 5, 3, 1, with the two 5s in registration order. |
| `EntityWorld.World.RegisterComponent` | core/src/main/java/tripleplay/entity/World.java:178-181 | The component is appended, and the index returned is its position. Earlier components are unchanged, nothing else changes, and the class invariant is kept. |
| `FlumpLoader.Wrap32` | core/src/main/java/tripleplay/flump/BinaryFlumpLoader.java:99 | A Java int sum: the result is congruent to the exact value modulo 2^32, and equal to it when the exact value fits. |
| `FlumpLoader.DecodeKeyframeData` | core/src/main/java/tripleplay/flump/BinaryFlumpLoader.java:97-106 | All fields of the record are carried over unchanged. The index is 0 without a previous keyframe, and otherwise the previous index plus the previous duration, wrapped to 32 bits. |
| `FlumpLoader.DecodedPrefixNext` | core/src/main/java/tripleplay/flump/BinaryFlumpLoader.java:89-93 | Decoding the next record, with the last decoded keyframe as predecessor, extends a correctly decoded prefix by one. |
| `FlumpLoader.DecodeLayerData` | core/src/main/java/tripleplay/flump/BinaryFlumpLoader.java:86-95 | The layer keeps its name and has one keyframe per record, in order. Each keyframe carries its record unchanged, and its index is the offset of the durations before it. |
| `FlumpLoader.DecodedIndexChain` | core/src/main/java/tripleplay/flump/BinaryFlumpLoader.java:89-93 | In a decoded layer, the first keyframe starts at frame 0 and each later one starts where the previous one ends. |
| `FlumpLoader.EncodeDecode` | core/src/main/java/tripleplay/flump/BinaryFlumpLoader.java:86-106 | Dropping the indices of a decoded layer gives back its records. A layer is the decoding of its own records exactly when its indices form that chain. |
| `FlumpLoader.DecodesLayerUnique` | core/src/main/java/tripleplay/flump/BinaryFlumpLoader.java:86-95 | A layer record has only one decoding. |
| `FlumpLoader.OffsetIsSum` | core/src/main/java/tripleplay/flump/BinaryFlumpLoader.java:89-99 | The k-th keyframe's index is the sum of the first k durations, wrapped to 32 bits. |
| `FlumpLoader.OffsetsExact` | core/src/main/java/tripleplay/flump/BinaryFlumpLoader.java:86-106 | If no duration is negative and the total fits in an int, every index is the exact sum of the durations before it, and indices never decrease. |
| `FlumpLoader.DecodeMovie` | core/src/main/java/tripleplay/flump/BinaryFlumpLoader.java:77-84 | The symbol has the movie's id as its name and the given frame rate. Each input layer gives one layer, decoded in order. |
| `FlumpLoader.DecodeMovies` | core/src/main/java/tripleplay/flump/BinaryFlumpLoader.java:47-51 | Each input movie gives one symbol, in input order, all at the library's frame rate. |

## Left out

**Collaborators and hooks**
- The five `Signal`s are not modelled as objects. Their listeners are not modelled; each emission is an `Emitted` trace event. `entityEnabled` and `entityDisabled` are emitted by `Entity`, which is not part of this model.
- `Entity`, `System`, `Component`, `Bag`, `IntBag` and react's `Signal` are not part of this model. Their effects are modelled as follows:
  - `noteAdded`, `clearChanging` and `Component.remove` become trace events.
  - `reset` yields a fresh entity with the same id.
  - `setEnabled(true)` sets the flag and appends the id to `toAdd`.
- No modelled operation destroys an entity or changes its enabled flag or components after creation. `Entity.destroy()`, `setEnabled(false)` and component changes between ticks are represented only by the arbitrary `Valid()` state that `Update` starts from. That is how a destroyed entity reaches the remove phase's clean-up and pooling.
- System hooks and signal listeners can be re-entrant. They are modelled only by the ids they append to the three queues, which must name existing entities. A hook that creates entities, destroys them or changes their components in the middle of a phase is not modelled.
- `System.update` and `System.paint` are recorded as calls, not executed. What an update does to the World is modelled only by the ids it appends to the three queues, as for the hooks; `paint` is taken to change nothing. The `Clock` passed to `paint` is an `int` parameter.

**World behaviour**
- Entities are values held in their slots. Java object identity and aliasing are not modelled. Neither is whether an id can sit in the pool twice, which depends on `Entity`'s own bookkeeping.
- `EntityWorld.World.Create` does not model Java `int` overflow; its counter and table length are unbounded.
  - The doubled length `_entities.length*2` overflows once the table has 2^30 slots.
  - So the source throws when it hands out fresh id 2^30, after `_nextEntityId++` has already run. The model simply doubles the table again.
  - `_nextEntityId` keeps climbing, because every later `create` with an empty pool runs `_nextEntityId++` before it throws. It wraps after about 2^30 more failing calls, after which `create` indexes a negative id.
- `EntityWorld.EntityIterator.Next` is specified only while the World is unchanged between calls. The iterator's behaviour under concurrent modification of the World is not modelled.

**Flump loading**
- `loadLibrary`, the atlas loop and callbacks of `decodeLibrary`, `decodeTexture` and the `Library` constructor are asynchronous asset loading and foreign calls. Only the movie loop of `decodeLibrary` is modelled.
- `LibraryData`, flump's `KeyframeData` and `LayerData`, and `Movie.Symbol` are not part of this model. Their fields are taken from the constructor calls in `BinaryFlumpLoader.java`.
- Floats are carried by their bit patterns and never computed with.
