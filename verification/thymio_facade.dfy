/**
 * The `Thymio` facade: the set of connected nodes, the per-node table of
 * variable observers, and dictionary-style access to a node's variables.
 *
 * The variables themselves live in the external connection library; here they
 * are an abstract map from (node id, variable name) to the variable's array of
 * integers. The background thread, its event loop and the transport are not
 * modelled: the connection's callbacks are methods that the environment calls.
 */
module Facade {
  import opened Wrappers

  /** What `node[name]` returns: an int for a one-element array, the list otherwise. */
  datatype Value = Scalar(x: int) | Array(elems: seq<int>)

  /** The connection's variables, by node id and variable name. */
  type Store = map<(nat, string), seq<int>>

  /** The integers a value stands for: what the scalar and the array setters store. */
  function Elements(v: Value): seq<int>
  {
    match v
    case Scalar(x) => [x]
    case Array(s) => s
  }

  /** The shape rule of `node[name]`: a one-element array is read as its sole element. */
  function Shape(arr: seq<int>): (v: Value)
    ensures Elements(v) == arr
    ensures v.Scalar? <==> |arr| == 1
  {
    if |arr| != 1 then Array(arr) else Scalar(arr[0])
  }

  /** `node[name]` once the connection exists: the stored array, shaped; `KeyError(name)` when unknown. */
  function Read(store: Store, node: nat, name: string): (r: Result<Value>)
    ensures r.Ok? <==> (node, name) in store
    ensures r.Ok? ==> Elements(r.value) == store[(node, name)]
    ensures r.Ok? ==> (r.value.Scalar? <==> |store[(node, name)]| == 1)
    ensures r.Raise? ==> r.exc == KeyError(Name(name))
  {
    if (node, name) in store then Ok(Shape(store[(node, name)])) else Raise(KeyError(Name(name)))
  }

  /**
   * `node[name] = v` once the connection exists: a list goes to the array
   * setter, anything else to the scalar setter; `KeyError(name)` when unknown.
   */
  function Write(store: Store, node: nat, name: string, v: Value): (r: Result<Store>)
    ensures r.Ok? <==> (node, name) in store
    ensures r.Ok? ==> r.value.Keys == store.Keys && r.value[(node, name)] == Elements(v)
    ensures r.Ok? ==> forall k :: k in store && k != (node, name) ==> r.value[k] == store[k]
    ensures r.Raise? ==> r.exc == KeyError(Name(name))
  {
    if (node, name) !in store then Raise(KeyError(Name(name)))
    else match v
      case Array(s) => Ok(store[(node, name) := s])     // set_var_array
      case Scalar(x) => Ok(store[(node, name) := [x]])  // set_var
  }

  /**
   * Reading back what was written gives the written value, except that a
   * one-element list comes back as its element; every other variable reads
   * as before.
   */
  lemma ReadAfterWrite(store: Store, node: nat, name: string, v: Value, node': nat, name': string)
    requires Write(store, node, name, v).Ok?
    ensures (node', name') == (node, name) ==>
      Read(Write(store, node, name, v).value, node', name') ==
        Ok(if v.Array? && |v.elems| == 1 then Scalar(v.elems[0]) else v)
    ensures (node', name') != (node, name) ==>
      Read(Write(store, node, name, v).value, node', name') == Read(store, node', name')
  {
  }

  /** An entry of the observer table: a no-op callback, or an observer's `_observe`. */
  datatype Handler<O> = NoOp | ObserveOf(observer: O)

  /** The observer whose `_observe` a variables-received event for `node` calls, if any. */
  function Dispatch<O>(table: map<nat, Handler<O>>, node: nat): (target: Option<O>)
    ensures target.Some? <==> node in table && table[node].ObserveOf?
    ensures target.Some? ==> table[node] == ObserveOf(target.value)
  {
    if node in table then
      match table[node]
      case NoOp => None
      case ObserveOf(o) => Some(o)
    else None
  }

  /** After registering `h` for `node`, events for `node` reach `h` and no other node's target changes. */
  lemma DispatchAfterRegister<O>(table: map<nat, Handler<O>>, node: nat, h: Handler<O>, other: nat)
    ensures Dispatch(table[node := h], node) == (if h.ObserveOf? then Some(h.observer) else None)
    ensures other != node ==> Dispatch(table[node := h], other) == Dispatch(table, other)
  {
  }

  /** An invocation of a user-supplied connection callback. */
  datatype Callback = Connected(node: nat) | Disconnected(node: nat)

  class Thymio<O> {
    const hasOnConnect: bool            // on_connect was supplied
    const hasOnDisconnect: bool         // on_disconnect was supplied
    var proxy: bool                     // thymio_proxy is not None
    var proxyNodes: set<nat>            // thymio_proxy.nodes
    var store: Store                    // the variables held by thymio_proxy.connection
    var observers: map<nat, Handler<O>> // variable_observers
    var callbacks: seq<Callback>        // calls of on_connect / on_disconnect, oldest first

    constructor (hasOnConnect: bool, hasOnDisconnect: bool)
      ensures this.hasOnConnect == hasOnConnect && this.hasOnDisconnect == hasOnDisconnect
      ensures !proxy && Nodes() == {} && observers == map[] && callbacks == []
    {
      this.hasOnConnect := hasOnConnect;
      this.hasOnDisconnect := hasOnDisconnect;
      proxy := false;
      proxyNodes := {};
      store := map[];
      observers := map[];
      callbacks := [];
    }

    /** The connection thread creates the proxy; `variables` is what its connection holds. */
    method CreateProxy(variables: Store)
      modifies this`proxy, this`proxyNodes, this`store
      ensures proxy && Nodes() == {} && store == variables
    {
      proxy := true;
      proxyNodes := {};
      store := variables;
    }

    /** `nodes()`: the connected node ids, empty before the proxy exists. */
    function Nodes(): (ids: set<nat>)
      reads this
      ensures !proxy ==> ids == {}
      ensures proxy ==> ids == proxyNodes
    {
      if proxy then proxyNodes else {}
    }

    /** `first_node()`: some connected node id; `StopIteration` when there is none. */
    method FirstNode() returns (r: Result<nat>)
      ensures r.Ok? <==> Nodes() != {}
      ensures r.Ok? ==> r.value in Nodes()
      ensures r.Raise? ==> r.exc == StopIteration
    {
      var ids := Nodes();
      if ids == {} {
        r := Raise(StopIteration);
      } else {
        var id :| id in ids;
        r := Ok(id);
      }
    }

    /**
     * The connection-changed event: a connect adds the id, a disconnect removes
     * it (`KeyError` when absent, as `set.remove` raises); the matching callback
     * runs only when one was supplied and only after the set was updated.
     */
    method OnConnectionChanged(node: nat, connected: bool) returns (r: Result<()>)
      requires proxy
      modifies this`proxyNodes, this`callbacks
      ensures connected ==>
        && r == Ok(())
        && proxyNodes == old(proxyNodes) + {node}
        && callbacks == old(callbacks) + (if hasOnConnect then [Connected(node)] else [])
      ensures !connected && node in old(proxyNodes) ==>
        && r == Ok(())
        && proxyNodes == old(proxyNodes) - {node}
        && callbacks == old(callbacks) + (if hasOnDisconnect then [Disconnected(node)] else [])
      ensures !connected && node !in old(proxyNodes) ==>
        && r == Raise(KeyError(NodeId(node)))
        && proxyNodes == old(proxyNodes)
        && callbacks == old(callbacks)
    {
      r := Ok(());
      if connected {
        proxyNodes := proxyNodes + {node};
        if hasOnConnect {
          callbacks := callbacks + [Connected(node)];
        }
      } else if node !in proxyNodes {
        r := Raise(KeyError(NodeId(node)));
      } else {
        proxyNodes := proxyNodes - {node};
        if hasOnDisconnect {
          callbacks := callbacks + [Disconnected(node)];
        }
      }
    }

    /** `self[node][name]`: `AttributeError` before the proxy exists, else the shaped read. */
    function Get(node: nat, name: string): (r: Result<Value>)
      reads this
      ensures !proxy ==> r == Raise(AttributeError)
      ensures proxy ==> r == Read(store, node, name)
    {
      if proxy then Read(store, node, name) else Raise(AttributeError)
    }

    /** `self[node][name] = v`: `AttributeError` before the proxy exists, else the write. */
    method Set(node: nat, name: string, v: Value) returns (r: Result<()>)
      modifies this`store
      ensures !proxy ==> r == Raise(AttributeError) && store == old(store)
      ensures proxy && Write(old(store), node, name, v).Ok? ==>
        r == Ok(()) && store == Write(old(store), node, name, v).value
      ensures proxy && Write(old(store), node, name, v).Raise? ==>
        r == Raise(KeyError(Name(name))) && store == old(store)
    {
      if !proxy {
        r := Raise(AttributeError);
      } else {
        var w := Write(store, node, name, v);
        if w.Ok? {
          store := w.value;
          r := Ok(());
        } else {
          r := Raise(w.exc);
        }
      }
    }

    /** `set_variable_observer`: the last registration for a node wins. */
    method SetVariableObserver(node: nat, h: Handler<O>)
      modifies this`observers
      ensures observers == old(observers)[node := h]
      ensures Dispatch(observers, node) == (if h.ObserveOf? then Some(h.observer) else None)
    {
      observers := observers[node := h];
      DispatchAfterRegister(old(observers), node, h, node);
    }
  }
}
