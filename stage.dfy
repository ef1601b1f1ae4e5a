// PX.world: the World the engine runs, and the World it will switch to. Setting it
// only stages the switch in `_goto`; the running World stays until the engine
// changes over at the end of the frame. Worlds are compared by reference.
module Staging {
  import opened Worlds

  /** What `_goto` holds after setting PX.world to `v`, with `running` in `_world`
      and `staged` in `_goto`: unchanged when `v` is the running World, `v` otherwise. */
  function Staged(running: World?, staged: World?, v: World?): (r: World?)
    ensures running == v ==> r == staged
    ensures running != v ==> r == v
  {
    if running == v then staged else v
  }

  /** Setting the same World twice stages no more than setting it once. */
  lemma StagedTwice(running: World?, staged: World?, v: World?)
    ensures Staged(running, Staged(running, staged, v), v) == Staged(running, staged, v)
  {
  }

  /** Setting the running World does not cancel a switch already staged: `_goto`
      keeps the other World. */
  lemma StagedKeepsPending(running: World?, staged: World?)
    requires staged != running
    ensures Staged(running, staged, running) == staged
    ensures Staged(running, staged, running) != running
  {
  }

  /** The static state of PX that the world property touches. */
  class Stage {
    var world: World?
    var goto: World?

    constructor ()
      ensures world == null && goto == null
    {
      world, goto := null, null;
    }

    /** The setter of PX.world: `_world` never changes; `_goto` takes the new World
        unless it is the running one. */
    method SetWorld(v: World?)
      modifies this
      ensures world == old(world)
      ensures goto == Staged(old(world), old(goto), v)
      ensures old(world) == v ==> goto == old(goto)
      ensures old(world) != v ==> goto == v
    {
      if world == v {
        return;
      }
      goto := v;
    }
  }
}
