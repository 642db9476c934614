# Thymio observer layer, modelled in Dafny

This project models the convenience layer that `thymio-python` puts over an
external Thymio II communication library:

- the `Thymio` facade (`thymio/thymio.py`): the set of connected node ids that
  connect/disconnect events grow and shrink, the per-node table of variable
  observers (last registration wins) through which variables-received events
  are dispatched, and dictionary-style access to a node's variables (a
  one-element array reads as its element; a list is written with the array
  setter, anything else with the scalar setter; unknown names raise
  `KeyError(name)`);
- the `ThymioObserver` lifecycle (`thymiodirect/thymio_observer.py`): not
  started, active, done; `start` binds a node and registers `_observe`,
  `_observe` runs the update hook only while not done, `stop` sets `done` and
  swaps in a no-op handler, leaving the scope always stops;
- the hand avoider (`hand_avoider.py`): `prox = (p[5] - p[2]) // 10` from the
  horizontal proximity sensors, motor targets and top-LED colour written only
  when `prox` changes, and a stop when the centre button is pressed.

Files: `wrappers.dfy` (Option, Result and the Python exceptions raised),
`thymio_constants.dfy` (variable names), `thymio_facade.dfy` (module `Facade`),
`thymio_observer.dfy` (module `Observer`), `hand_avoider.dfy` (module
`HandAvoiding`).

Modelling choices:

- The external connection's variables are an abstract
  `map<(nat, string), seq<int>>` held by the facade (`Thymio.store`). The
  scalar setter stores `[x]`, the array setter stores the list; both raise
  `KeyError` for an unknown (node, name) pair, which `Node` re-raises as
  `KeyError(name)`.
- Values read or written are `Scalar(int) | Array(seq<int>)`.
- Handlers are `NoOp | ObserveOf(observer)`. Because the observer module uses
  the facade, the facade is generic in the observer type (`Thymio<O>`,
  `Handler<O>`); the observer module instantiates it with `ThymioObserver`.
  The facade looks the handler up (`Dispatch`); the observer module makes the
  call (`DeliverRefresh`).
- The user's `on_connect` / `on_disconnect` callbacks are user code: the model
  records each invocation in `Thymio.callbacks`.
- `HandAvoider` is a subclass in the source; here it holds its
  `ThymioObserver` part (`observer`) and adds `prox_prev`, `Update` (its
  `_update`) and `Observe` (its `_observe`, which runs `Update` only while not done).
- The node view `th` (`thymio[node_id]`) is the pair (`thymio`, `nodeId`); the
  `done` property is the `done` field.
- Python's `//` on a divisor of 10 is floor division, which is what Dafny's
  Euclidean `/` computes for a positive divisor; `ProxFrom` states the floor
  bounds outright.
- An exception from the proximity read, from the `prox` computation or from a
  motor or LED write leaves the writes made before it in place and
  `prox_prev` unchanged; one from the centre-button read comes after
  `prox_prev = prox`, so a changed `prox` is then already recorded.
  `UpdateEffect.raised` carries the exception.
- `first_node()` on no nodes raises `StopIteration` (from `next` on an empty
  iterator); the observer binds its node with `_set_thymio_node`.

## Model

| member | source | states |
|---|---|---|
| Facade.Shape | thymio/thymio.py:110 | the value read holds exactly the stored integers, and is a scalar iff the array has length 1 |
| Facade.Read | thymio/thymio.py:107-112 | reading succeeds iff the (node, name) variable exists; the value holds the stored array, scalar iff its length is 1; otherwise `KeyError(name)` |
| Facade.Write | thymio/thymio.py:113-120 | writing succeeds iff the variable exists; it stores the value's integers (list to the array setter, scalar to the scalar setter), keeps the set of variables and every other variable; otherwise `KeyError(name)` |
| Facade.ReadAfterWrite | thymio/thymio.py:107-120 | reading a written variable gives back the written value, a one-element list coming back as its element; other variables read as before |
| Facade.Dispatch | thymio/thymio.py:36-39 | a variables-received event reaches an observer iff one is registered for that node id, and then exactly the registered one |
| Facade.DispatchAfterRegister | thymio/thymio.py:124-125 | after registering a handler for a node, that node's events reach it and every other node's target is unchanged |
| Facade.Thymio.constructor | thymio/thymio.py:49-61 | no proxy, no nodes, an empty observer table and no callback calls; the callbacks supplied are recorded |
| Facade.Thymio.CreateProxy | thymio/thymio.py:18-22 | once the proxy exists its node set is empty and the connection's variables are in place |
| Facade.Thymio.Nodes | thymio/thymio.py:75-78 | `nodes()` is empty before the proxy exists and is the proxy's node set afterwards |
| Facade.Thymio.FirstNode | thymio/thymio.py:75-83 | returns a member of `nodes()` when there is one, and raises `StopIteration` iff `nodes()` is empty (always before the proxy exists) |
| Facade.Thymio.OnConnectionChanged | thymio/thymio.py:26-34 | connect adds the id, disconnect removes it, no other id changes; disconnecting an absent id raises `KeyError(id)` and changes nothing; each callback is invoked only when supplied |
| Facade.Thymio.Get | thymio/thymio.py:103-112 | `AttributeError` before the proxy exists, otherwise the shaped read of `Read` |
| Facade.Thymio.Set | thymio/thymio.py:113-120 | `AttributeError` and no change before the proxy exists, otherwise the store becomes the result of `Write`, or stays and `KeyError(name)` is raised |
| Facade.Thymio.SetVariableObserver | thymio/thymio.py:124-125 | the node's handler is replaced, other nodes' handlers are unchanged, and the node's events then reach the new handler |
| Observer.ThymioObserver.constructor | thymiodirect/thymio_observer.py:49-55 | a fresh observer is not done and bound to no facade and no node |
| Observer.ThymioObserver.SetThymioNode | thymiodirect/thymio_observer.py:64-70 | binds the facade and the node id together |
| Observer.ThymioObserver.Observe | thymiodirect/thymio_observer.py:80-87 | the update hook runs iff the observer is not done; a node-id mismatch is only reported and does not prevent the update |
| Observer.ThymioObserver.Reset | thymiodirect/thymio_observer.py:96-97 | `done` becomes false |
| Observer.ThymioObserver.Start | thymiodirect/thymio_observer.py:99-105 | `done` is false, the node is bound, and this observer's `_observe` replaces the node's handler, no other, so the node's events reach it |
| Observer.ThymioObserver.Stop | thymiodirect/thymio_observer.py:117-124 | `done` becomes true; when bound, the bound node's handler becomes a no-op so its events reach no observer; before any start only `done` changes |
| Observer.ThymioObserver.Exit | thymiodirect/thymio_observer.py:129-130 | leaving the scope, normally or by exception, ends with `done` true and the handler silenced |
| Observer.DeliverRefresh | thymio/thymio.py:36-39 | a variables-received event runs the update hook of exactly the observer registered for the node, and only while that observer is not done |
| Observer.StopTwice | thymiodirect/thymio_observer.py:117-124 | `stop` is idempotent: two calls leave the state one call leaves |
| Observer.RefreshAfterStop | thymiodirect/thymio_observer.py:117-124 | after `stop`, no refresh event for any node reaches the stopped observer's update hook, and the bound node's events reach no observer |
| HandAvoiding.ProxFrom | hand_avoider.py:11 | `prox` is the floor of (p[5] - p[2]) / 10; it exists iff the reading is a list of at least six elements, else `TypeError` (a scalar) or `IndexError` |
| HandAvoiding.LedColour | hand_avoider.py:17-22 | green iff prox > 5, yellow iff prox < -5, blue iff abs(prox) < 3, unchanged iff 3 <= abs(prox) <= 5; every colour is three components in 0..32 |
| HandAvoiding.UpdateEffect | hand_avoider.py:10-26 | an update keeps the set of variables, changes only the node's motor and LED targets, asks to stop only when it ran to the end, and writes only LED values of three components in 0..32 |
| HandAvoiding.EqualReadingWritesNothing | hand_avoider.py:13 | when `prox` equals `prox_prev` no variable is written and `prox_prev` stays |
| HandAvoiding.ChangedReadingWrites | hand_avoider.py:13-23 | when `prox` changes, both motor targets become `prox`, the LEDs take the threshold colour or keep their value, and `prox_prev` becomes `prox` |
| HandAvoiding.FirstUpdateWrites | hand_avoider.py:8-15 | the first update always writes both motor targets with `prox`, since `prox_prev` starts as `None`, whenever the proximity and motor variables exist; with every variable present `prox_prev` becomes `prox` |
| HandAvoiding.CentreButtonStops | hand_avoider.py:24-26 | with all variables present, an update asks to stop iff the centre button reads truthy, whether or not `prox` changed |
| HandAvoiding.WriteOutputsIdempotent | hand_avoider.py:14-22 | writing the motor and LED outputs a second time for the same `prox` changes nothing and fails the same way |
| HandAvoiding.UpdateIsIdempotent | hand_avoider.py:13-23 | an update run on what the previous update left, with the same readings, has exactly the same effect |
| HandAvoiding.RepeatedRefreshes | hand_avoider.py:10-26 | any number of refreshes with unchanged sensor readings leave exactly what the first one left |
| HandAvoiding.HandAvoider.constructor | hand_avoider.py:5-8 | a fresh, unbound, not-done observer part and `prox_prev = None` |
| HandAvoiding.HandAvoider.Observe | thymiodirect/thymio_observer.py:80-87 | the hand avoider's `_observe` runs its `_update` iff the observer is not done; once done it changes neither the variables, `prox_prev`, `done` nor the handler table |
| HandAvoiding.HandAvoider.Update | hand_avoider.py:10-26 | the facade's variables, `prox_prev` and the exception raised are those `UpdateEffect` gives; a pressed centre button stops the observer and silences its handler, otherwise neither `done` nor the handler table changes |

## Left out

- The background thread, the asyncio event loop, `Connection.serial` and the busy-wait of `connect()`: concurrency and I/O; `CreateProxy` stands for the proxy the thread creates, and the window before its connection exists is not modelled.
- The refresh and discovery rates and the event loop passed to the constructor: they only configure the external connection.
- `variables`, `variable_size`, `variable_offset`: pass-through lookups into the external library.
- The external connection library itself (wire protocol, transport, variable offsets and sizes): its variables are an abstract map, and the setters' effect on it is assumed to replace the stored array.
- `block_until_done` and `run`: sleep-polling loops with `KeyboardInterrupt` handling whose termination depends on another thread.
- `__enter__`: it returns the observer itself and changes nothing.
- The abstract `_update` of the base observer: its running is the `callsUpdate` result of `Observe` and the result of `DeliverRefresh`; only the hand avoider's `_update` is modelled.
- `thymiodirect/single_serial_thymio_runner.py` and `thymiodirect/__init__.py`: orchestration, printing and re-exports; the runner's only logic, stopping the observer on a communication error, is `Stop`.
- All `print` output; the node-mismatch message is the `warns` result of `Observe`.
- Observer.DeliverRefresh: states which observer's update hook runs, not what that hook does, except for the hand avoider (`HandAvoider.Update`).
- Facade.Thymio.OnConnectionChanged: records that a user callback was invoked, not what it does.
