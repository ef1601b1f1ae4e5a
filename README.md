# PunkX world, entity, mask and tween core in Dafny

PunkX is a C# port of the FlashPunk game engine. This project models the part of it
that keeps a game's objects in order:

- **World**: the container of entities. It holds deferred add and remove queues and
  three kinds of intrusive doubly linked lists: the update list, one render list per
  layer, and one list per collision type. It also holds the tables that count and head
  those lists, and a per-class stash of recycled entities. On top of these sit the
  frame loop (`update`, `render`, `updateLists`), the z-order moves, and the collision,
  nearest-entity and counting queries.
- **Entity**: the collision queries an entity makes of its World, and the `layer`,
  `type` and `mask` setters that keep the World's lists and masks in step.
  `setHitbox` and `centerOrigin` are modelled too.
- **Mask** and **Hitbox**: per-class collision dispatch tables, parent assignment, and
  the Hitbox setters that refit the parent entity.
- **Tweener** and **Tween**: the intrusive tween list an entity inherits, and a tween's
  clock, scale and completion behaviour.
- **PX**: the small helpers the core uses or exports:
  - `sign`, `approach`, `clamp`, `zeroPad`;
  - the colour packing helpers, `frames`, and `next`/`prev`/`swap`;
  - the staged `world` setter.

The World is a Dafny class over an arena. Entity records live in a map from handles to
values. The links of each list family live in a separate link map, and a ghost sequence
names the order of each list. `WorldState.Good` is the World invariant. It ties the
tables (heads, ends, counts, class counts, the layer list) and the links to those
sequences. It also keeps the queues in balance with each entity's `world` and `added`
fields, and holds the mask table and the recycling stash in order.

Every World method preserves `Good`. Each one states its new state exactly, in terms of
functions whose meaning is proved in lemmas:
- the first hit, the gathered hits and the nearest entity of a scan;
- the calls `update` and `render` make;
- the balance of the queues across `updateLists`.

Tween and Tweener are heap classes. The tween list is a ghost sequence of Tween objects
whose `_prev`/`_next`/`_parent` fields the methods rewrite. The tween state changes are
stated by value-level functions in `TweenValues`.

## Model

| member | source | states |
|---|---|---|
| Worlds.World.constructor | World.cs:43-45 | a new World holds nothing and satisfies the World invariant |
| Worlds.World.Construct | PX.cs:119-125 | `new C()` for an entity class gives a fresh entity at an unused handle, outside every World, with the class's name and the field defaults; nothing else changes |
| Worlds.World.Add | World.cs:133-142 | an entity in no World joins the end of the add queue and takes this World at once; an entity already in a World is left alone; the invariant is kept |
| Worlds.World.Remove | World.cs:149-158 | an entity of this World joins the end of the remove queue and loses its World at once; any other entity is left alone; the invariant is kept |
| Worlds.World.RemoveAll | World.cs:163-172 | (corrected, see Findings) every entity on the update list ends outside the World, only those still in it are queued, and the invariant is kept |
| Worlds.World.RemoveAllLoop | World.cs:165-171 | the walk from `_updateFirst` along `_updateNext` queues exactly what the corrected removeAll queues |
| Worlds.World.UpdateLists | World.cs:1233-1293 | the new state and the calls made are those of the remove pass, then the add pass, then the pending layer sort; afterwards both queues are empty, the layer list is sorted and the invariant holds |
| Worlds.World.RemovePassLoop | World.cs:1236-1262 | the loop over the remove queue ends in the state and calls of `WorldState.RemovePass` |
| Worlds.World.AddPassLoop | World.cs:1267-1282 | the loop over the add queue ends in the state and calls of `WorldState.AddPass` |
| Worlds.World.RetireHead | World.cs:1249-1260 | one remove-pass step on a committed entity: it is uncommitted and taken off its update, render and (when typed) type lists, with tweens cleared when autoClear is set |
| Worlds.World.CommitHead | World.cs:1271-1278 | one add-pass step: the entity is committed and put on its update, render and (when typed) type lists |
| Worlds.World.CancelHead | World.cs:1241-1246 | the patched case of the remove pass: the entity leaves the add queue and the head of the remove queue, and nothing else changes |
| Worlds.World.SortLayers | World.cs:1284-1292 | the pending layer sort: the render table's layer list is sorted and no sort is pending |
| Worlds.World.TakeRecycled | World.cs:282-287 | create's stash step on the World's state is `WorldModel.Pop` |
| Worlds.World.PutRecycled | World.cs:311-312 | recycle's stash step on the World's state is `WorldModel.Push` |
| Worlds.World.DropRecycled | World.cs:330 | clearRecycled drops the class's stash entry and nothing else |
| Worlds.World.Create | World.cs:280-297 | the top of the class's stash is taken, with its link cleared, when there is one; otherwise a fresh entity of the class is built; it is then added when asked |
| Worlds.World.Recycle | World.cs:305-314 | an entity of this World goes on top of its class's stash and is removed; any other entity is left alone |
| Worlds.World.ClearRecycled | World.cs:320-332 | the class loses its stash entry and the walked links are cleared; other classes keep their stash |
| Worlds.World.UnlinkRecycled | World.cs:322-329 | the walk clears exactly the links `WorldModel.Strip` says it reaches |
| Worlds.World.BringToFront | World.cs:350-374 | true exactly for an entity of this World with a render predecessor, which then heads its layer; otherwise false and nothing changes |
| Worlds.World.SendToBack | World.cs:381-405 | true exactly for an entity of this World with a render successor, which then ends its layer; otherwise false and nothing changes |
| Worlds.World.BringForward | World.cs:412-443 | true exactly for an entity of this World with a predecessor, which it then swaps places with; otherwise false and nothing changes |
| Worlds.World.SendBackward | World.cs:450-481 | true exactly for an entity of this World with a successor, which it then swaps places with; otherwise false and nothing changes |
| Worlds.World.IsAtFront | World.cs:488-491 | a committed entity is at the front exactly when it heads its layer's list; an uncommitted one always is |
| Worlds.World.IsAtBack | World.cs:498-501 | a committed entity is at the back exactly when it ends its layer's list; an uncommitted one always is |
| Worlds.World.CollideRect | World.cs:512-521 | the first entity of the type's list whose collideRect at its own position meets the rectangle, None if none does, or the fault of a test that throws first |
| Worlds.World.CollidePoint | World.cs:530-539 | the same first-hit scan with collidePoint |
| Worlds.World.CollideRectInto | World.cs:704-741 | a List target gains the hits in list order; an array target overflows at the first hit; any other target is a usage error |
| Worlds.World.CollidePointInto | World.cs:751-788 | the same with collidePoint |
| Worlds.World.TypeInto | World.cs:711-734 | the loop over the type list yields `WorldModel.HitsInto` |
| Worlds.World.NearestToRect | World.cs:799-817 | the earliest entity of the type's list with the least squareRects distance to the rectangle; None for an empty list |
| Worlds.World.NearestToEntity | World.cs:826-850 | with hitboxes, the nearest to the entity's hitbox; otherwise the nearest to its corner (position less origin) |
| Worlds.World.NearestToPoint | World.cs:860-891 | the nearest to the point, by squarePointRect to each hitbox or by squared distance to each position |
| Worlds.World.NearestBy | World.cs:799-891 | the walk shared by the nearest queries gives `Scans.Nearest` |
| Worlds.World.NearestType | World.cs:801-816 | the loop that keeps a strictly nearer entity gives `Scans.Nearest` over the type list |
| Worlds.World.FindType | World.cs:514-520 | the loop along `_typeNext` gives `Scans.Scan`, the first accepted entity or the first fault |
| Worlds.World.GatherType | World.cs:726-734 | the loop along `_typeNext` gives `Scans.Gather`, every accepted entity up to the first fault |
| Worlds.World.GetType | World.cs:1082-1112 | a List gains the type's whole list in order; an array overflows unless the type has no entity; anything else is a usage error |
| Worlds.World.GetAll | World.cs:1198-1228 | the same over the update list |
| Worlds.World.TypeEntities | World.cs:1082-1112 | the walk from `_typeFirst` visits the type's list in order |
| Worlds.World.UpdateEntities | World.cs:1198-1228 | the walk from `_updateFirst` visits the update list in order |
| Worlds.World.EntityCount | World.cs:896-899 | `count` is the length of the update list |
| Worlds.World.TypeCount | World.cs:906-909 | `typeCount` is the length of the type's list |
| Worlds.World.ClassCount | World.cs:916-919 | `classCount` is the number of entities of that class on the update list |
| Worlds.World.LayerCount | World.cs:926-929 | `layerCount` is the length of the layer's render list |
| Worlds.World.First | World.cs:934 | `first` is the head of the update list |
| Worlds.World.Layers | World.cs:939 | `layers` is the number of layers that have entities |
| Worlds.World.TypeFirst | World.cs:946-953 | the head of the type's list, None for an empty World |
| Worlds.World.LayerFirst | World.cs:983-990 | the head of the layer's list, None for an empty World |
| Worlds.World.LayerLast | World.cs:997-1004 | the end of the layer's list, None for an empty World |
| Worlds.World.LayerFarthest | World.cs:1039-1049 | 0 for an empty World; otherwise the layer that holds the first entity render draws, sorted or not, and the greatest layer once the layer list is sorted |
| Worlds.World.LayerNearest | World.cs:1054-1064 | 0 for an empty World; otherwise the layer that holds the last entity render draws, sorted or not, and the least layer once the layer list is sorted |
| Worlds.World.FarthestEntity | World.cs:1009-1019 | None exactly for an empty World; otherwise the end of the farthest layer, which is the first entity render draws |
| Worlds.World.NearestEntity | World.cs:1024-1034 | None exactly for an empty World; otherwise the head of the nearest layer, which is the last entity render draws |
| Worlds.World.UniqueTypes | World.cs:1069-1075 | at least the number of types that have entities (a type whose list emptied keeps its key) |
| Worlds.World.Update | World.cs:66-86 | the calls made are `WorldModel.UpdateCalls` over the update list: tweens and update for each active entity, then graphic update where the graphic is active |
| Worlds.World.UpdateWalkCalls | World.cs:69-85 | the loop along `_updateNext` makes those calls in list order |
| Worlds.World.Render | World.cs:93-110 | the calls made are the render of each visible entity, in the order `WorldModel.Drawn` visits: layers from the end of the layer list, each layer from its end |
| Worlds.World.RenderLayers | World.cs:96-109 | the outer loop over the layer list from its end gives that order |
| Worlds.World.RenderLayer | World.cs:100-108 | the inner loop from `_renderLast` along `_renderPrev` renders one layer backwards |
| Worlds.World.AddUpdate | World.cs:1299-1320 | the entity heads the update list; the count and its class's count rise by one |
| Worlds.World.RemoveUpdate | World.cs:1326-1342 | the entity leaves the update list; the count and its class's count fall by one |
| Worlds.World.AddRender | World.cs:1348-1369 | the entity heads its layer's list; a new layer is opened, appended to the layer list and a sort made pending |
| Worlds.World.RemoveRender | World.cs:1375-1408 | the entity leaves its layer's list; an emptied layer leaves the layer list, its slot taken by the last entry |
| Worlds.World.AddType | World.cs:1414-1430 | the entity heads its type's list; the type's count rises by one |
| Worlds.World.RemoveType | World.cs:1436-1450 | the entity leaves its type's list; the type's count falls by one |
| WorldModel.Push | World.cs:311-312 | recycle's stash step: the entity heads the class's stash and links to the old head, if any |
| WorldModel.Pop | World.cs:282-287 | create's stash step: the head is taken when there is one, its successor becomes the head, and its link is cleared |
| WorldModel.PopAfterPush | World.cs:280-314 | create after recycle hands back the recycled entity and restores the stash, less that entity's stale link |
| WorldModel.PopStack | World.cs:282-287 | on a stash that is a stack, create takes the top and leaves the rest |
| WorldModel.PushStack | World.cs:311-312 | recycling an entity not on the stack pushes it on top |
| WorldModel.RecycledTwice | World.cs:305-314 | recycle does not look in the stash: an entity recycled twice is stored twice, and two creates hand out the same entity |
| WorldModel.StripSub | World.cs:322-329 | clearRecycled only clears links |
| WorldModel.StripStack | World.cs:322-329 | on a stack, clearRecycled clears exactly the links of the stack's entities |
| WorldModel.UpdateCallsFor | World.cs:66-86 | an entity is updated exactly when listed and active; its tweens are updated exactly when it is also tweening; its graphic exactly when that is active |
| WorldModel.UpdateCallsMeaning | World.cs:66-86 | the same for every entity at once, and update makes no other call |
| WorldModel.ShownMeaning | World.cs:93-110 | exactly the visible entities of the visit are rendered, and nothing else is called |
| WorldModel.DrawnMembers | World.cs:93-110 | render visits exactly the entities of the listed layers |
| WorldModel.DrawnEnds | World.cs:93-110 | render starts at the end of the last layer of the layer list and finishes at the head of its first |
| WorldModel.DrawnStep | World.cs:96-109 | the visit from a layer on is the visit of the later layers followed by that layer backwards |
| WorldModel.DrawnDepth | World.cs:93-110 | with the layer list sorted, render draws higher layers first: along the visit, layer numbers never increase |
| WorldModel.HitsInto | World.cs:704-741 | an array or other target is returned unchanged; other targets are a usage error; a List keeps its items and gains at most the list |
| WorldModel.HitsIntoMeaning | World.cs:704-788 | an array overflows exactly when something is hit; a List gains exactly the hits |
| WorldModel.AllInto | World.cs:1082-1112 | a List gains the whole list; an array overflows exactly when the list is non-empty; other targets are a usage error |
| WorldModel.AddBalance | World.cs:133-142 | add keeps each entity in one of its four queue states |
| WorldModel.RemoveBalance | World.cs:149-158 | remove keeps each entity in one of its four queue states |
| WorldModel.CancelBalance | World.cs:1241-1246 | the patched case (uncommitted, still queued for adding) leaves the add queue and keeps the balance |
| WorldModel.RetireBalance | World.cs:1249-1260 | every other remove-queue entry is a committed entity, and uncommitting it keeps the balance |
| WorldModel.CommitBalance | World.cs:1271-1278 | with the remove queue empty, each add-queue head is an uncommitted entity of this World, not queued twice |
| WorldModel.SettledBalance | World.cs:1233-1293 | with both queues empty, an entity is committed exactly when it is in this World |
| WorldModel.RemoveAllAsWritten | World.cs:163-172 | removeAll as written queues every listed entity, whatever its state, keeping the arena's handles |
| WorldModel.RemoveAllFixed | World.cs:163-172 | removeAll as intended queues only listed entities, and keeps what was already queued in front |
| WorldModel.RemoveAllFixedBalance | World.cs:163-172 | the intended removeAll keeps the balance, leaves every listed entity outside the World, and changes only worlds |
| WorldModel.RemoveAllDoubleQueues | World.cs:163-172 | removeAll as written queues an already-removed entity a second time and breaks the balance |
| WorldState.EmptyGood | World.cs:43-45 | the empty World satisfies the invariant |
| WorldState.ConstructGood | PX.cs:119-125 | a fresh entity at the next handle keeps the invariant |
| WorldState.AddGood | World.cs:133-142 | add on an entity in no World keeps the invariant |
| WorldState.RemoveGood | World.cs:149-158 | remove on an entity of this World keeps the invariant |
| WorldState.RemoveAllGood | World.cs:163-172 | the intended removeAll keeps the invariant and leaves every listed entity outside the World |
| WorldState.CancelGood | World.cs:1241-1246 | the patched case of the remove pass keeps the invariant |
| WorldState.Retired | World.cs:1249-1260 | the remove pass leaves the entity uncommitted, its tweens cleared exactly when autoClear is set, and all else as it was |
| WorldState.RetireGood | World.cs:1249-1260 | a remove-queue head that is not the patched case is committed, is on its lists, and taking it off keeps the invariant |
| WorldState.CommitGood | World.cs:1271-1278 | an add-queue head is an uncommitted entity of this World, and committing it keeps the invariant |
| WorldState.SortGood | World.cs:1284-1292 | the pending sort keeps the invariant and leaves the layer list sorted with nothing pending |
| WorldState.SettledGood | World.cs:1233-1293 | with both queues empty, the committed entities are exactly those in this World and exactly those on the update list |
| WorldState.RetireHooks | World.cs:1249-1260 | the remove pass calls removed, and clearTweens exactly when autoClear is set and tweens are present |
| WorldState.RemovePass | World.cs:1236-1262 | the remove pass empties the remove queue |
| WorldState.AddPass | World.cs:1267-1282 | the add pass empties both queues |
| WorldState.RemovePassGood | World.cs:1236-1262 | the remove pass keeps the invariant |
| WorldState.AddPassGood | World.cs:1267-1282 | the add pass keeps the invariant |
| WorldState.UpdateLists | World.cs:1233-1293 | updateLists leaves both queues empty, the layer list sorted, and the invariant kept |
| WorldState.UpdateListsSettles | World.cs:1233-1293 | after updateLists an entity is committed exactly when it is in this World, and exactly those entities are on the update list |
| WorldState.RemovePassFrame | World.cs:1236-1262 | the remove pass changes no entity field but commitment and the tween list |
| WorldState.RemovePassHooks | World.cs:1236-1262 | the remove pass calls only removed and clearTweens, and only on queued entities |
| WorldState.AddPassFrame | World.cs:1267-1282 | the add pass changes no entity field but commitment |
| WorldState.AddPassHooks | World.cs:1267-1282 | the add pass calls added once per queued entity, in queue order, and nothing else |
| WorldState.UpdateListsFrame | World.cs:1233-1293 | updateLists changes no entity's World, class, layer, type, position, flags, graphic or mask |
| WorldState.UpdateWalk | World.cs:69-85 | a walk from `_updateFirst` along `_updateNext` visits the update list in order |
| Lists.ClassTally | World.cs:916-919 | a class's tally never exceeds the list's length |
| Lists.TallyPush | World.cs:1313-1319 | counting a class per push keeps `_classCount` equal to the tally |
| Lists.TallyDrop | World.cs:1340-1341 | uncounting per removal keeps `_classCount` equal to the tally, and never lowers a zero |
| Lists.UpdatePush | World.cs:1299-1320 | addUpdate keeps the update table in step with a list that gains the entity at its head |
| Lists.UpdateDrop | World.cs:1326-1342 | removeUpdate keeps the update table in step with a list that loses the entity; no count it lowers is zero |
| Lists.HeadsPush | World.cs:1367-1368 | a push makes the entity the head of its list |
| Lists.LastsPush | World.cs:1358-1366 | a push ends a new list at the entity and leaves the end of a non-empty one alone |
| Lists.CountedPush | World.cs:1350-1366 | a push counts one more entity under its key |
| Lists.HeadsDrop | World.cs:1386-1393 | after an unlink the head moves on if the entity was the head, and an emptied list loses its entry |
| Lists.LastsDrop | World.cs:1377-1384 | after an unlink the end moves back if the entity was the end, and an emptied list loses its entry |
| Lists.CountedDrop | World.cs:1406 | an unlink counts one entity less under a key that held at least one |
| Lists.LayerOrderPush | World.cs:1358-1363 | opening a layer appends it to the layer list and makes a sort pending |
| Lists.LayerOrderDrop | World.cs:1394-1404 | emptying a layer takes it off the layer list, the moved last entry making a sort pending |
| Lists.RenderPush | World.cs:1348-1369 | addRender keeps the render table in step with the lists |
| Lists.RenderDrop | World.cs:1375-1408 | removeRender keeps the render table in step with the lists; no count it lowers is zero |
| Lists.TypePush | World.cs:1414-1430 | addType keeps the type table in step with the lists |
| Lists.TypeDrop | World.cs:1436-1450 | removeType keeps the type table in step with the lists; no count it lowers is zero |
| Lists.DropLayer | World.cs:1397-1402 | the emptied layer's slot is taken by the last entry, so the layer list shrinks by one |
| Lists.DropLayerSpec | World.cs:1397-1402 | the layer list loses exactly the emptied layer and still names each layer once |
| Lists.SortKeeps | World.cs:1284-1292 | the sort keeps the layer list's entries and their distinctness |
| Lists.RenderSorted | World.cs:1284-1292 | after the sort the render table is in step, the layer list is sorted, and nothing is pending |
| Lists.FrontCore | World.cs:350-374 | bringToFront's relinking puts the entity at the head and leaves the rest of the layer in order |
| Lists.BackCore | World.cs:381-405 | sendToBack's relinking puts the entity at the end and leaves the rest in order |
| Lists.ForwardCore | World.cs:412-443 | bringForward's relinking swaps the entity with its predecessor |
| Lists.BackwardCore | World.cs:450-481 | sendBackward's relinking swaps the entity with its successor |
| WorldSteps.PopGood | World.cs:282-287 | create's stash step keeps the invariant and hands out an entity of the arena |
| WorldSteps.PushGood | World.cs:311-312 | recycle's stash step keeps the invariant |
| WorldSteps.Cleared | World.cs:320-332 | after clearRecycled the class has no stash entry and every other class keeps its entry |
| WorldSteps.ClearedGood | World.cs:320-332 | clearRecycled keeps the invariant |
| WorldSteps.ClearedMeaning | World.cs:320-332 | on a stack, clearRecycled drops the class's head, clears the stack's links, and keeps every other class's stack |
| WorldSteps.FrontGood | World.cs:350-374 | an entity with a render predecessor is listed, not at the head, and moving it to the front keeps the invariant |
| WorldSteps.BackGood | World.cs:381-405 | an entity with a render successor is listed, not at the end, and moving it to the back keeps the invariant |
| WorldSteps.ForwardGood | World.cs:412-443 | bringForward keeps the invariant |
| WorldSteps.BackwardGood | World.cs:450-481 | sendBackward keeps the invariant |
| WorldSteps.FrontedKeeps | World.cs:350-374 | bringToFront keeps the layer's entities and puts the entity first |
| WorldSteps.BackedKeeps | World.cs:381-405 | sendToBack keeps the layer's entities and puts the entity last |
| WorldSteps.ForwardedKeeps | World.cs:412-443 | bringForward keeps the layer's entities and moves the entity one place forward |
| WorldSteps.BackwardedKeeps | World.cs:450-481 | sendBackward keeps the layer's entities and moves the entity one place back |
| WorldSteps.RelayerGood | Entity.cs:431-449 | moving a committed entity to another layer's list keeps the invariant |
| WorldSteps.DetypeGood | Entity.cs:465-468 | taking a committed typed entity off its type list keeps the invariant |
| WorldSteps.EntypeGood | Entity.cs:469-473 | putting a committed untyped entity on a new type's list keeps the invariant |
| WorldSteps.NewMaskGood | Mask.cs:28-33 | a new unparented mask at the next handle keeps the invariant |
| WorldSteps.ParentGood | Mask.cs:75-82 | re-parenting a mask keeps the invariant |
| WorldSteps.BoxGood | masks/Hitbox.cs:63-142 | a new box for a Hitbox keeps the invariant |
| WorldSteps.HoldGood | Entity.cs:481-500 | an entity taking any mask of the table keeps the invariant |
| WorldSteps.TypeWalk | World.cs:512-521 | a type list is linked from its head and holds entities of the arena |
| WorldSteps.RenderWalk | World.cs:93-110 | each listed layer has a linked list ended by its `_renderLast` entry |
| WorldSteps.PlacedAt | World.cs:488-501 | a committed entity's render links put it at its index in its layer's list; an uncommitted one has none |
| EntityOps.Moved | Entity.cs:155-207 | moving an entity to (x, y) changes only its position, and its hitbox follows |
| EntityOps.AfterGood | Entity.cs:155-207 | a query that throws midway, leaving the entity moved, keeps the invariant |
| EntityOps.CollideMeaning | Entity.cs:155-207 | with masks attached, collide never faults; it finds nothing exactly when no entity of the type's list passes the hit test; otherwise it finds the first that passes |
| EntityOps.Collide | Entity.cs:155-207 | collide answers as `CollideOf`; the entity is back at its place unless a test threw |
| EntityOps.CollideTypesFirst | Entity.cs:216-228 | collideTypes finds nothing exactly when collide finds nothing for every type; otherwise it answers as collide for the first type that finds something |
| EntityOps.CollideTypes | Entity.cs:216-228 | collideTypes answers as collide over the types in turn |
| EntityOps.CollideWith | Entity.cs:237-266 | collideWith gives the other entity when its test passes, nothing when it fails, and the test's fault when it throws |
| EntityOps.CollideRect | Entity.cs:278-302 | the answer is collideRect's probe with the entity at (x, y): its box touching the rectangle, shared edges included, then the mask's box for a masked entity; the entity is back in place unless that throws |
| EntityOps.CollidePoint | Entity.cs:312-336 | the answer is collidePoint's probe with the entity at (x, y): the point in its half-open box, then in the mask's box for a masked entity; the entity is back in place unless that throws |
| EntityOps.CollideIntoMeaning | Entity.cs:345-395 | with masks attached, collideInto gathers exactly the entities of the type's list that pass the hit test |
| EntityOps.CollideInto | Entity.cs:345-395 | the list gains collideInto's hits in order, up to a throwing test |
| EntityOps.CollideTypesIntoMeaning | Entity.cs:404-410 | with masks attached, collideTypesInto gathers exactly the hits on the listed types' lists |
| EntityOps.CollideTypesInto | Entity.cs:404-410 | the list gains collideInto's hits for each type in turn, up to a throwing test |
| EntityOps.LayerSet | Entity.cs:431-449 | it throws exactly for a real change on an entity committed but already removed; otherwise only the layer changes, and a committed entity heads its new layer's list |
| EntityOps.LayerSetGood | Entity.cs:431-449 | the layer setter keeps the invariant |
| EntityOps.LayerSetAlone | Entity.cs:431-449 | afterwards a committed entity of a World is on its new layer's list and no other |
| EntityOps.Placed | Entity.cs:431-449 | a committed entity is on its own layer's list |
| EntityOps.OneLayer | Entity.cs:431-449 | a committed entity is on no other layer's list |
| EntityOps.SetLayer | Entity.cs:431-449 | the layer setter's fault and new state are those of `LayerSet`; a fault changes nothing |
| EntityOps.TypeSet | Entity.cs:454-475 | (corrected, see Findings) it throws exactly for a real change on an entity committed but already removed; otherwise only the type changes, and a committed entity heads its new type's list |
| EntityOps.TypeSetAsWritten | Entity.cs:465-473 | as written, on the throwing path an untyped entity keeps the new type; a typed one is unchanged |
| EntityOps.TypeSetStrays | Entity.cs:465-473 | that partial write breaks the invariant: a committed entity with a type is on no type list |
| EntityOps.Retype | Entity.cs:465-473 | the entity leaves its old type's list and heads the new one's |
| EntityOps.TypeSetGood | Entity.cs:454-475 | the (corrected) type setter keeps the invariant |
| EntityOps.TypeSetAlone | Entity.cs:454-475 | afterwards a committed entity of a World is on its new type's list only |
| EntityOps.Typed | Entity.cs:454-475 | a committed typed entity is on its type's list |
| EntityOps.OneType | Entity.cs:454-475 | an entity is on no other type's list |
| EntityOps.SetType | Entity.cs:454-475 | (corrected, see Findings) the type setter's fault and new state are those of `TypeSet`; a fault changes nothing |
| EntityOps.MaskSet | Entity.cs:481-500 | the mask setter keeps the arena's handles and the mask table sound |
| EntityOps.MaskSetGood | Entity.cs:481-500 | the mask setter keeps the invariant |
| EntityOps.MaskSetMeaning | Entity.cs:481-500 | afterwards the entity holds the new mask, which has it as parent; the old mask has no parent; a Hitbox's box becomes the entity's hitbox |
| EntityOps.SetMask | Entity.cs:481-500 | the mask setter's new state is `MaskSet` |
| EntityOps.SetHitbox | Entity.cs:529-535 | only the entity's size and origin change |
| EntityOps.CenterOrigin | Entity.cs:540-544 | only the entity's origin changes, to half its size |
| Entities.NewEntity | Entity.cs:91-105 | a new entity is visible, collidable and inactive, at the origin, with no World, type, mask or graphic, on layer 0 |
| Entities.HitboxMask | Entity.cs:74 | the built-in HITBOX is a well-formed plain mask whose parent is the entity |
| Entities.SetHitbox | Entity.cs:529-535 | exactly the size and origin change, and the hitbox is the box of that size at position less origin |
| Entities.CenterOrigin | Entity.cs:540-544 | only the origin changes; twice the origin is within one of the size, and on the same side of zero |
| Entities.CenterOriginTruncates | Entity.cs:540-544 | an odd negative width is halved toward zero |
| Masks.NewMask | Mask.cs:28-33 | a plain mask has resolvers for plain masks and mask lists only, and no parent |
| Masks.NewHitbox | masks/Hitbox.cs:22-31 | a Hitbox has the given box and resolvers for all three mask classes, its own replacing the plain one |
| Masks.DefaultHitbox | masks/Hitbox.cs:22 | the default Hitbox is 1x1 at offset (0, 0) |
| Masks.MaskRect | masks/Hitbox.cs:38-58 | a plain mask occupies its parent's hitbox; a Hitbox its own box offset from the parent's position |
| Masks.Collide | Mask.cs:40-45 | (the reading with the fall-back) two well-formed masks collide exactly when their boxes overlap, whichever resolver answers |
| Masks.CollideAsWritten | Mask.cs:40-45 | the dictionary read throws exactly when the receiver has no resolver for the other's class; otherwise it answers as Collide |
| Masks.PlainAgainstHitboxThrows | Mask.cs:40-45 | a plain mask asked about a Hitbox throws as written, where the fall-back would answer with the overlap |
| Masks.CollideSymmetric | Mask.cs:40-45 | which mask asks does not matter |
| Masks.PlainDefersToHitbox | Mask.cs:40-45 | a plain mask has no Hitbox resolver, so the Hitbox's own plain-mask resolver answers |
| Masks.AfterUpdate | masks/Hitbox.cs:147-162 | update leaves the parent's position alone, and a plain mask's update changes nothing |
| Masks.UpdatedHitboxAgrees | masks/Hitbox.cs:147-162 | after update the parent's hitbox is the Hitbox's box, so both resolvers agree |
| Masks.WithBox | masks/Hitbox.cs:63-142 | a new box keeps the Hitbox well formed and its parent |
| MaskOps.Fitted | masks/Hitbox.cs:147-162 | a Hitbox refits only its parent's origin and size, making the parent's hitbox the mask's box |
| MaskOps.UpdateOf | masks/Hitbox.cs:147-162 | update throws exactly for a Hitbox with no parent; otherwise the mask table is kept sound |
| MaskOps.UpdateGood | masks/Hitbox.cs:147-162 | update keeps the invariant |
| MaskOps.AssignOf | Mask.cs:75-82 | assignTo records the new parent and keeps the mask table sound |
| MaskOps.AssignGood | Mask.cs:75-82 | assignTo keeps the invariant |
| MaskOps.AssignedParent | Mask.cs:75-82 | assignTo(e) refits e for a Hitbox, leaves it alone for a plain mask, and changes no other record |
| MaskOps.ReboxOf | masks/Hitbox.cs:63-142 | the Hitbox setters keep the arena's handles and the mask table sound |
| MaskOps.ReboxGood | masks/Hitbox.cs:63-142 | the Hitbox setters keep the invariant |
| MaskOps.ReboxFits | masks/Hitbox.cs:63-142 | a changed box becomes the parent's hitbox; with no parent, no entity changes |
| MaskOps.NewMask | Mask.cs:28-33 | `new Mask()` goes at an unused handle; nothing else changes |
| MaskOps.NewHitbox | masks/Hitbox.cs:22-31 | `new Hitbox(...)` goes at an unused handle; nothing else changes |
| MaskOps.Update | masks/Hitbox.cs:147-162 | update's fault and new state are those of `UpdateOf`; a fault changes nothing |
| MaskOps.AssignTo | Mask.cs:75-82 | assignTo's new state is `AssignOf` |
| MaskOps.Rebox | masks/Hitbox.cs:63-142 | a Hitbox setter's new state is `ReboxOf`: nothing changes for an unchanged box; otherwise the box is replaced and a parent, if any, refitted by update |
| MaskOps.SetX | masks/Hitbox.cs:63-79 | the x setter changes the offset x through `ReboxOf` |
| MaskOps.SetY | masks/Hitbox.cs:84-100 | the y setter changes the offset y through `ReboxOf` |
| MaskOps.SetWidth | masks/Hitbox.cs:105-121 | the width setter changes the width through `ReboxOf` |
| MaskOps.SetHeight | masks/Hitbox.cs:126-142 | the height setter changes the height through `ReboxOf` |
| Probes.ParentAt | Mask.cs:52-58 | a resolver reading a missing parent dereferences null |
| Probes.MaskHit | Mask.cs:40-58 | two masks collide when their boxes overlap, faulting exactly when a parent is missing |
| Probes.MaskStep | Entity.cs:175-202 | the mask half of collide can fault only by a null dereference |
| Probes.CollideProbeMeaning | Entity.cs:155-207 | with masks attached, collide accepts exactly another collidable entity whose hitbox strictly overlaps and whose collision box overlaps |
| Probes.WithProbeMeaning | Entity.cs:237-266 | with masks attached, collideWith accepts exactly when both entities are collidable and both box tests pass |
| Probes.MaskStepMeaning | Entity.cs:175-202 | with masks attached, the mask step passes when the collision boxes overlap or neither entity has a mask |
| Probes.RectProbeMeaning | Entity.cs:278-302 | collideRect is the inclusive box test, and for a masked entity also a strict overlap of the mask's box |
| Probes.PointProbeMeaning | Entity.cs:312-336 | collidePoint is the half-open box test, and for a masked entity also the point inside the mask's box |
| Probes.DetachedMaskFaults | Entity.cs:290-300 | a mask passed on and then taken off leaves its first holder with no parent to read: collideRect dereferences null |
| Probes.CollideTest | Entity.cs:155-207 | the collide test applies to every entity of the arena |
| Probes.RectTest | World.cs:512-521 | World.collideRect tests each candidate at its own position |
| Probes.PointTest | World.cs:530-539 | World.collidePoint tests each candidate at its own position |
| Probes.EntityGauge | World.cs:826-850 | with hitboxes an entity is measured by its hitbox, otherwise by its corner |
| Probes.Gauged | World.cs:799-891 | the distance applies to every entity of the arena |
| Scans.Settle | World.cs:514-520 | a test that says no leaves the scan undecided |
| Scans.ScanSettled | World.cs:514-520 | once a prefix decides the scan, the rest of the list is not examined |
| Scans.ScanFirst | World.cs:514-520 | the scan finds nothing exactly when every test says no; otherwise it answers as the first test that does not say no |
| Scans.ScanFound | World.cs:514-520 | what the scan finds is on the list and accepted, and a fault is a test's |
| Scans.Gather | World.cs:726-734 | the gathered entities are no more than the list |
| Scans.GatherMeaning | World.cs:726-734 | with no fault it gathers exactly the accepted entities; a fault is a test's, and anything gathered is accepted |
| Scans.Nearest | World.cs:801-816 | None exactly for an empty list |
| Scans.NearestMeaning | World.cs:801-816 | the kept entity is on the list, none is nearer, and every earlier one is strictly farther |
| Distances.SquarePoints | World.cs:1494-1497 | never negative, zero exactly for the same point |
| Distances.SquareRectsIsGaps | World.cs:1464-1484 | squareRects is the sum of the squared gaps on the two axes |
| Distances.GapMeaning | World.cs:1464-1484 | for positive sizes the gap is never negative, zero exactly when the spans meet, and symmetric |
| Distances.SquareRectsMeaning | World.cs:1464-1484 | for positive sizes squareRects is zero exactly when the closed rectangles meet, and is symmetric |
| Distances.SquarePointRectIsGaps | World.cs:1509-1529 | squarePointRect is the sum of the squared gaps between the point and the spans |
| Distances.SquarePointRectMeaning | World.cs:1509-1529 | for non-negative sizes it is zero exactly when the point lies in the closed rectangle |
| Distances.SquareRectsDegenerate | World.cs:1464-1484 | with a zero-height rectangle the distance depends on which rectangle is named first |
| Geometry.HitRect | Entity.cs:155-207 | an entity's hitbox has its size, at its position less its origin |
| Geometry.OverlapSymmetric | Entity.cs:155-207 | strict overlap is symmetric |
| Geometry.TouchSymmetric | Entity.cs:278-302 | the touching test is symmetric |
| Geometry.OverlapIsTouch | Entity.cs:278-302 | strict overlap implies touching, and not conversely |
| Geometry.PointIsUnitOverlap | Entity.cs:312-336 | a point is in a box exactly when the 1x1 box at the point overlaps it |
| Geometry.EdgeConventions | Entity.cs:278-336 | collideRect counts shared edges, collidePoint excludes the right and bottom edges |
| Tweens.Tween.constructor | Tween.cs:61-67 | a new tween is inactive, at time 0, with no parent or links, holding its duration, type, callback and easer |
| Tweens.Tween.Start | Tween.cs:90-99 | the clock goes back to 0, and the tween runs unless its duration is 0 |
| Tweens.Tween.Update | Tween.cs:72-85 | the clock advances one frame or by the elapsed time; the scale (what `scale` returns) is the clock over the duration, eased strictly between 0 and 1, and 1 with the finish mark from the duration on |
| Tweens.Tween.Finish | Tween.cs:104-139 | PERSIST stops at the end, LOOPING folds its clock and restarts, ONESHOT stops and leaves its Tweener; a ONESHOT with no parent throws after the clock and active flag are written; then the mark clears and the callback runs once |
| Tweens.Tween.Leave | Tween.cs:125-130 | the ONESHOT branch stops the tween at the end and unlinks it from its Tweener, or throws with no parent |
| Tweens.Tween.Percent | Tween.cs:144-148 | the percentage is finite exactly for a non-zero duration, and then times the duration gives the clock |
| Tweens.Tween.SetPercent | Tween.cs:144-148 | setting the percentage and reading it back gives the value set, for a non-zero duration |
| Tweens.Tweener.constructor | Tweener.cs:32-34 | a new Tweener has no tweens and is inactive |
| Tweens.Tweener.AddTween | Tweener.cs:49-69 | a tween with a parent is refused and nothing changes; otherwise it becomes the head, started when asked; no other tween changes |
| Tweens.Tweener.RemoveTween | Tweener.cs:76-101 | a tween of another Tweener is refused with an exception and nothing changes; otherwise it leaves the list, the rest keeping their order, and is unlinked and inactive |
| Tweens.Tweener.AddThenRemove | Tweener.cs:49-101 | adding a free tween and removing it leaves the list as it was and the tween detached and inactive |
| Tweens.Tweener.Unlink | Tweener.cs:83-96 | relinking the neighbours leaves the rest of the list a chain without the tween |
| Tweens.Tweener.ClearTweens | Tweener.cs:106-116 | afterwards the list is empty and every former tween is detached and inactive |
| Tweens.Tweener.RemoveHead | Tweener.cs:110-115 | one step of clearTweens removes the head and leaves the rest |
| Tweens.Tweener.UpdateTweens | Tweener.cs:122-137 | every tween up to and including the first ONESHOT that finishes gets its tick; that one leaves the list; the rest wait for the next frame |
| Tweens.Tweener.TickTween | Tweener.cs:126-135 | one tween gets its tick and leaves the list exactly when the tick finishes it as a ONESHOT |
| Tweens.Tweener.FinishAt | Tween.cs:104-139 | finish on a listed tween: a ONESHOT leaves the list, any other type keeps its place |
| Tweens.FirstStop | Tweener.cs:122-137 | the first tween a tick detaches: none before it stops, it does |
| Tweens.StopIndex | Tweener.cs:122-137 | the same position, computed from tween states |
| TweenValues.Quotient | Tween.cs:75 | the float division by the duration is finite exactly for a non-zero duration, and then inverts multiplication |
| TweenValues.Eased | Tween.cs:76-79 | the easer applies only to a scale strictly between 0 and 1 |
| TweenValues.Remainder | Tween.cs:116-117 | the float remainder is finite exactly for a non-zero divisor, and in [0, divisor) for a non-negative clock |
| TweenValues.Step | Tween.cs:74 | one frame in fixed-frame mode, otherwise the elapsed time |
| TweenValues.Started | Tween.cs:90-99 | start zeroes the clock and runs the tween exactly when its duration is non-zero |
| TweenValues.Updated | Tween.cs:72-85 | update advances the clock, marks finished from the duration on, and sets the scale |
| TweenValues.Finished | Tween.cs:104-139 | finish's effect by tween type, with the mark cleared and one callback run when there is one |
| TweenValues.Tick | Tweener.cs:126-135 | an inactive tween is left alone; an active one updates, then finishes when the update finished it |
| TweenValues.TickClearsFinish | Tweener.cs:126-135 | every tick of an active tween leaves the finish mark cleared |
| TweenValues.FinishedStays | Tween.cs:104-130 | a PERSIST or ONESHOT tween that finishes is inactive at its end, and later ticks leave it alone |
| TweenValues.FixedFrameRun | Tween.cs:72-85 | in fixed-frame mode n updates run n frames; the tween is marked finished exactly from the duration-th update on, with scale n / duration before (no easer) and 1 after |
| TweenValues.PercentRoundTrip | Tween.cs:144-148 | setting the percentage and reading it back gives the value set, or a non-finite value for duration 0 |
| TweenValues.LoopingScale | Tween.cs:114-123 | a LOOPING tween with no easer restarts with a scale in [0, 1) |
| PX.Sign | PX.cs:250-253 | -1, 0 or 1, zero exactly for 0, and sign times value is the magnitude |
| PX.Approach | PX.cs:262-265 | moves toward the target by at most the amount, never past it |
| PX.Clamp | PX.cs:445-454 | the value kept within the range of min and max, in either order |
| PX.ClampIdempotent | PX.cs:445-454 | clamping twice is clamping once |
| PX.Digits | PX.cs:135-143 | the digits of a natural number, without a leading zero |
| PX.DigitsRoundTrip | PX.cs:135-143 | reading the digits back gives the number |
| PX.ZeroPad | PX.cs:135-143 | the number's text, preceded by just enough zeroes to reach the width |
| PX.GetRed | PX.cs:626-629 | a value from 0 to 255 |
| PX.GetGreen | PX.cs:636-639 | a value from 0 to 255 |
| PX.GetBlue | PX.cs:646-649 | a value from 0 to 255 |
| PX.ColorRoundTrip | PX.cs:588-591 | components from 0 to 255 survive getColorRGB and come back out of getRed, getGreen and getBlue |
| PX.Next | PX.cs:543-548 | with looping, the following option, wrapping to the first |
| PX.Prev | PX.cs:560-567 | the preceding option; with looping it wraps to the last, without it stays on the first |
| PX.PrevOfNext | PX.cs:543-567 | with looping and distinct options, stepping forward then back returns to the start |
| PX.NextNoLoopAsWritten | PX.cs:550 | as written, without looping, next gives the last option, and throws from the last option |
| PX.NextNoLoopSkips | PX.cs:550 | from the first of three options the as-written step jumps to the third |
| PX.NextNoLoop | PX.cs:550 | (corrected, see Findings) without looping, the following option, staying on the last |
| PX.PrevOfNextNoLoop | PX.cs:550-567 | without looping, stepping forward then back returns to any option but the last |
| PX.Swap | PX.cs:576-579 | b when current is a, otherwise a |
| PX.SwapTwice | PX.cs:576-579 | swapping twice returns to the start |
| PX.UpShape | PX.cs:749-756 | the ascending run starts at from, climbs by skip + 1, stays within [from, to], and is empty exactly when from > to |
| PX.DownShape | PX.cs:757-764 | the descending run starts at from, falls by skip + 1, stays within [to, from], and is non-empty exactly when from >= to |
| PX.Frames | PX.cs:745-766 | when the counter cannot wrap, the list is the ascending run if from < to and the descending run otherwise |
| PX.WrapSub | PX.cs:762 | uint subtraction wraps below 0 |
| PX.FramesDownWraps | PX.cs:757-764 | as written, a descending counter below the step wraps to at least 2^32 - step, still at or above to: frames(5, 1, 2) goes on after 2 with 4294967295 |
| PX.FramesToZeroStops | PX.cs:757-764 | (corrected) counting down to 0 ends after frame 0 |
| PX.Insert | World.cs:1289 | inserting into a sorted list keeps it sorted and adds exactly the value |
| PX.SortAscending | World.cs:1289 | the layer sort gives an ascending permutation of the layer list |
| Staging.Staged | PX.cs:149-160 | staging the running World keeps what was staged; any other World is staged |
| Staging.StagedTwice | PX.cs:149-160 | setting the same World twice stages no more than once |
| Staging.StagedKeepsPending | PX.cs:149-160 | setting the running World does not cancel a pending switch |
| Staging.Stage.SetWorld | PX.cs:149-160 | the setter never changes the running World; it stages the new World unless that is the running one |

## Left out

- One World's arena: every entity the model holds belongs to this World or to none. Not
  modelled, for that reason:
  - an entity of another World reaching the no-op branches of add, remove and recycle
    (World.cs:135, 151, 307) and of the four z-order moves (World.cs:352, 383, 414, 452);
  - Entity.collide and collideInto reading the running World `PX._world` (Entity.cs:157,
    347) for an entity that is not in that World: EntityOps.Collide and its companions
    require the querying entity to be in the queried World's arena;
  - a recycled entity later added to another World and then handed out again by this
    World's create.
- Readings carried over from ActionScript:
  - a List written at index Count is taken to append;
  - a missing Dictionary or List entry reads as no entry (null, or a count of zero);
  - the render lists indexed by layer number are maps;
  - a type whose list has emptied has no head entry.
  These are what the code was written for. In C#, a write at Count and a read of a
  missing key throw.
- Worlds.World.TypeCount, Worlds.World.ClassCount, Worlds.World.LayerCount: read a key the
  World has never seen as 0. The C# Dictionary read at World.cs:908, 918 and 928 throws
  KeyNotFoundException there.
- Worlds.World.TypeFirst, Worlds.World.LayerFirst, Worlds.World.LayerLast: read a missing
  key as null, where World.cs:952, 989 and 1003 throw.
- Worlds.World.AddType: takes a type whose list has emptied as having no head, and opens
  it anew. removeType at World.cs:1439 leaves a null `_typeFirst` entry, and
  the `ContainsKey` test at World.cs:1417 then dereferences that null.
- PX.Approach: states its result only for a non-negative amount. With a negative amount
  the source moves away from the target, and the model's body does the same.
- Worlds.World.UniqueTypes: states only a lower bound. A type whose list emptied keeps its
  `_typeCount` key, and the model does not track those stale keys.
- Masks.Collide: is the reading with the fall-back to the other mask's table.
  Masks.CollideAsWritten models the throwing read at Mask.cs:42; the query paths use the
  reading.
- Floats:
  - entity positions are integers;
  - tween clocks, `approach` and `clamp` use reals;
  - NaN and the infinities appear only as the non-finite result of a division or
    remainder by a zero duration.
  Float rounding is not modelled.
- Easers are arbitrary functions from reals to reals. PX.fixedFrameRate and PX.elapsed
  are parameters of Tween.Update and Tweener.UpdateTweens. A completion callback is
  recorded only as a count of calls.
- The World's calls into entities are recorded as a sequence of calls:
  - `added`, `removed`, `update`, `render`;
  - the Tweener's `clearTweens` and `updateTweens`;
  - the Graphic's `update`.
  What those overridable methods do is not modelled. They are taken to change nothing the
  World keeps.
- Tweens.Tween.Scale: a plain getter of the scale. Its meaning is stated by
  Tweens.Tween.Update and TweenValues.Updated.
- Worlds.World.Recycle: like the source, does not look in the stash. An entity recycled,
  added again with add and recycled again is stored twice (WorldModel.RecycledTwice), and
  two creates hand it out twice. The source documents no other behaviour, so the model
  keeps this one.
- Worlds.World.Construct: stands for PX.CreateInstance, the reflection factory. The
  entity gets the field defaults of its constructor; the constructor's position,
  graphic and mask arguments are not modelled.
- PX.SortAscending: PX.sort is called at World.cs:1289, but PX.cs does not define it. The
  model uses an ascending sort.
- PX.Frames: requires that the counter not wrap:
  - skip + 1 must fit a uint;
  - an ascending run must stop below 2^32;
  - a descending run must stop at or above 0.
  The wrapping behaviour is stated by PX.IterateDown and PX.FramesDownWraps (see Findings).
- PX.Next, PX.Prev: require the current value to be one of the options, as their
  documentation demands. An absent value (IndexOf gives -1) and an empty list are not
  modelled.
- Entity.collideInto, collideTypesInto and World.getType/getAll take a List (or an
  array) by reference. The model returns the extended sequence.
- collideMasklist and Masklist: the model keeps the Masklist resolver entry in the
  tables, but the `list` field is taken to be null. Masklist is not part of this model.
- Not part of this model, because they lie outside the core:
  - World.collideLine;
  - World.classFirst and World.getClass, which match names by substring through
    reflection;
  - World.getLayer;
  - World.clearRecycledAll, World.addList, World.removeList, World.addGraphic and
    World.addMask;
  - Entity.distanceFrom, distanceToPoint and distanceToRect;
  - the Engine, Graphic drawing, the camera, randomness, sound, the console and timing;
  - Tweener.update (its body is empty).
- Concurrency: none in the source.

## Findings

| source | as written | input that shows it | evidently intended | confidence | as-written member | corrected member |
|---|---|---|---|---|---|---|
| World.cs:163-172 | removeAll queues every entity on the update list and clears its World, whether or not the entity is still in this World | an entity committed to the World and then removed (queued, World cleared) before removeAll: the remove queue holds it twice, and updateLists unlinks it a second time from lists it has left | remove(e) for each entity, which queues only entities still in this World | medium; not executed | WorldModel.RemoveAllAsWritten, WorldModel.RemoveAllDoubleQueues | Worlds.World.RemoveAll, WorldModel.RemoveAllFixedBalance |
| PX.cs:757-764 | the descending loop of frames subtracts skip + 1 from a uint counter while it is at least `to` | frames(5, 1, 2) gives 5, 2, 4294967295, … and runs on for billions of entries before the counter lands on 0; frames(n, 0) never stops | stop once the counter would drop below `to` | high; not executed | PX.FramesDownWraps | PX.Frames, PX.DownShape, PX.FramesToZeroStops |
| PX.cs:550 | next without looping indexes `Math.Max(index + 1, Count - 1)` | next(1, [1, 2, 3], false) gives 3, and from the last option it indexes past the end and throws | `Math.Min`: the following option, staying on the last | high; not executed | PX.NextNoLoopAsWritten, PX.NextNoLoopSkips | PX.NextNoLoop, PX.PrevOfNextNoLoop |
| Entity.cs:465-473 | the type setter writes `_type` before asking its World to list the entity, so with no World it throws after the write | an untyped entity committed to a World, removed before updateLists, then given type "x": it is committed, typed "x", and on no type list, so a later removeType finds no list to take it off | no write when the setter throws, as the layer setter does | medium; not executed | EntityOps.TypeSetAsWritten, EntityOps.TypeSetStrays | EntityOps.TypeSet, EntityOps.TypeSetGood |
