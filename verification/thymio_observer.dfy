/**
 * `ThymioObserver`: an update hook bound to one node of a `Thymio` facade.
 *
 * Its lifecycle is not started -> active -> done. `Start` binds the node and
 * registers the observer's `_observe` in the facade's handler table; a
 * variables-received event then calls `_observe`, which calls the update hook
 * only while the observer is not done; `Stop` sets `done` and swaps the
 * node's handler for a no-op.
 */
module Observer {
  import opened Wrappers
  import opened Facade

  class ThymioObserver {
    var thymio: Thymio?<ThymioObserver>  // the facade, null until the observer is bound
    var nodeId: Option<nat>              // _node_id
    var done: bool                       // _done, read through the `done` property

    /** The facade and the node id are bound together. */
    ghost predicate Valid()
      reads this
    {
      (thymio == null) == nodeId.None?
    }

    /** A fresh observer is not done and is bound to no facade. */
    constructor ()
      ensures Valid() && !done && thymio == null && nodeId == None
    {
      thymio := null;
      nodeId := None;
      done := false;
    }

    /** `_set_thymio_node`: bind the facade and the node (the node view `th` is the pair). */
    method SetThymioNode(th: Thymio<ThymioObserver>, node: nat)
      modifies this`thymio, this`nodeId
      ensures Valid() && thymio == th && nodeId == Some(node)
    {
      thymio := th;
      nodeId := Some(node);
    }

    /**
     * `_observe`: whether the update hook runs (`callsUpdate`) and whether the
     * node-mismatch message is reported (`warns`). A mismatch does not stop the update.
     */
    method Observe(node: nat) returns (callsUpdate: bool, warns: bool)
      ensures callsUpdate <==> !done
      ensures warns <==> !done && nodeId != Some(node)
    {
      if done {
        return false, false;
      }
      warns := nodeId != Some(node);
      callsUpdate := true;
    }

    /** `_reset` */
    method Reset()
      modifies this`done
      ensures !done
    {
      done := false;
    }

    /** The bound facade, as a frame: empty before the observer is bound. */
    function Facades(): set<Thymio<ThymioObserver>>
      reads this
    {
      if thymio == null then {} else {thymio}
    }

    /** This observer's `_observe` is the handler that the bound node's refresh events reach. */
    ghost predicate Registered()
      reads this, thymio
    {
      thymio != null && nodeId.Some? && Dispatch(thymio.observers, nodeId.value) == Some(this)
    }

    /**
     * `start`: reset, bind, and register `_observe` for the node, replacing any
     * earlier handler of that node and no other.
     */
    method Start(th: Thymio<ThymioObserver>, node: nat)
      modifies this, th`observers
      ensures Valid() && !done && thymio == th && nodeId == Some(node)
      ensures th.observers == old(th.observers)[node := ObserveOf(this)]
      ensures Registered()
    {
      Reset();
      SetThymioNode(th, node);
      thymio.SetVariableObserver(node, ObserveOf(this));
    }

    /**
     * `stop`: set `done`; when bound, replace the bound node's handler with a
     * no-op. Before any start only `done` changes.
     */
    method Stop()
      requires Valid()
      modifies this`done, Facades()`observers
      ensures Valid() && done
      ensures thymio != null ==> thymio.observers == old(thymio.observers)[nodeId.value := NoOp]
      ensures thymio != null ==> Dispatch(thymio.observers, nodeId.value) == None
    {
      done := true;
      if thymio != null {
        thymio.SetVariableObserver(nodeId.value, NoOp);
      }
    }

    /** `__exit__`: leaving the scope, normally or by an exception, stops the observer. */
    method Exit()
      requires Valid()
      modifies this`done, Facades()`observers
      ensures Valid() && done
      ensures thymio != null ==> thymio.observers == old(thymio.observers)[nodeId.value := NoOp]
    {
      Stop();
    }
  }

  /**
   * The variables-received event for `node`: the registered handler is looked
   * up and, when it is an observer's `_observe`, called. The result is the
   * observer whose update hook runs: the registered one, and only while it is
   * not done.
   */
  method DeliverRefresh(th: Thymio<ThymioObserver>, node: nat) returns (updated: Option<ThymioObserver>)
    ensures updated.Some? <==> Dispatch(th.observers, node).Some? && !Dispatch(th.observers, node).value.done
    ensures updated.Some? ==> updated == Dispatch(th.observers, node)
  {
    updated := None;
    var target := Dispatch(th.observers, node);
    if target.Some? {
      var callsUpdate, _ := target.value.Observe(node);
      if callsUpdate {
        updated := target;
      }
    }
  }

  /** Stopping twice leaves the state that stopping once leaves. */
  method StopTwice(o: ThymioObserver)
    requires o.Valid()
    modifies o`done, o.Facades()`observers
    ensures o.Valid() && o.done
    ensures o.thymio != null ==> o.thymio.observers == old(o.thymio.observers)[o.nodeId.value := NoOp]
  {
    o.Stop();
    o.Stop();
  }

  /** After `stop`, no refresh event reaches the observer's update hook, for any node. */
  method RefreshAfterStop(o: ThymioObserver, th: Thymio<ThymioObserver>, node: nat)
    returns (updated: Option<ThymioObserver>)
    requires o.Valid()
    modifies o`done, o.Facades()`observers
    ensures updated != Some(o)
    ensures o.thymio == th && o.nodeId == Some(node) ==> updated == None
  {
    o.Stop();
    updated := DeliverRefresh(th, node);
  }
}
