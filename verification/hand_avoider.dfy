/**
 * The hand avoider: on each refresh it turns the difference of two
 * horizontal proximity readings into a motor speed, colours the top LEDs by
 * threshold, and stops when the centre button is pressed.
 *
 * `UpdateEffect` is the update step as a function of the variables, the node
 * and the previous reading; `HandAvoider.Update` performs it on the facade and
 * is proved to leave exactly what `UpdateEffect` describes.
 */
module HandAvoiding {
  import opened Wrappers
  import opened Facade
  import opened Observer
  import opened ThymioConstants

  const GREEN: seq<int> := [0, 32, 0]
  const YELLOW: seq<int> := [32, 32, 0]
  const BLUE: seq<int> := [0, 0, 32]

  function Abs(x: int): nat
  {
    if x < 0 then -x else x
  }

  /**
   * `(p[5] - p[2]) // 10` for the value read from the proximity variable:
   * floor division by 10; indexing an int raises `TypeError`, a list shorter
   * than six raises `IndexError`.
   */
  function ProxFrom(v: Value): (r: Result<int>)
    ensures r.Ok? <==> v.Array? && |v.elems| >= 6
    ensures r.Ok? ==> 10 * r.value <= v.elems[5] - v.elems[2] < 10 * r.value + 10
    ensures v.Scalar? ==> r == Raise(TypeError)
    ensures v.Array? && |v.elems| < 6 ==> r == Raise(IndexError)
  {
    match v
    case Scalar(_) => Raise(TypeError)
    case Array(p) => if |p| < 6 then Raise(IndexError) else Ok((p[5] - p[2]) / 10)
  }

  /** The `prox` an update computes from the node's variables, or what it raises. */
  function ProxReading(store: Store, node: nat): Result<int>
  {
    match Read(store, node, PROXIMITY_FRONT_BACK)
    case Raise(e) => Raise(e)
    case Ok(v) => ProxFrom(v)
  }

  /**
   * The top-LED colour for `prox`: green above 5, yellow below -5, blue for
   * |prox| < 3, none (the LEDs are left as they are) for 3 <= |prox| <= 5.
   */
  function LedColour(prox: int): (c: Option<seq<int>>)
    ensures c == Some(GREEN) <==> prox > 5
    ensures c == Some(YELLOW) <==> prox < -5
    ensures c == Some(BLUE) <==> Abs(prox) < 3
    ensures c == None <==> 3 <= Abs(prox) <= 5
    ensures c.Some? ==> |c.value| == 3 && forall i :: 0 <= i < 3 ==> 0 <= c.value[i] <= 32
  {
    if prox > 5 then Some(GREEN)
    else if prox < -5 then Some(YELLOW)
    else if Abs(prox) < 3 then Some(BLUE)
    else None
  }

  /** Python truthiness of a value read from a variable. */
  function Truthy(v: Value): bool
  {
    match v
    case Scalar(x) => x != 0
    case Array(s) => |s| > 0
  }

  /** The variables one node's update writes. */
  predicate IsOutput(node: nat, k: (nat, string))
  {
    k == (node, MOTOR_LEFT) || k == (node, MOTOR_RIGHT) || k == (node, LEDS_TOP)
  }

  /** The variables an update reads and writes are all present. */
  predicate Wired(store: Store, node: nat)
  {
    && (node, PROXIMITY_FRONT_BACK) in store
    && (node, MOTOR_LEFT) in store
    && (node, MOTOR_RIGHT) in store
    && (node, LEDS_TOP) in store
    && (node, BUTTON_CENTER) in store
  }

  /**
   * What one update leaves: the variables, `prox_prev`, whether it asked the
   * observer to stop, and the exception that ended it early, if any (writes
   * made before the exception stay).
   */
  datatype Effect = Effect(store: Store, proxPrev: Option<int>, pressed: bool, raised: Option<Exception>)

  /** The tail of an update: read the centre button. */
  function ButtonStep(store: Store, node: nat, proxPrev: Option<int>): Effect
  {
    match Read(store, node, BUTTON_CENTER)
    case Raise(e) => Effect(store, proxPrev, false, Some(e))
    case Ok(b) => Effect(store, proxPrev, Truthy(b), None)
  }

  /** The writes of an update whose `prox` changed: both motors, then the LEDs when a colour is chosen. */
  function WriteOutputs(store: Store, node: nat, prox: int): (Store, Option<Exception>)
  {
    match Write(store, node, MOTOR_LEFT, Scalar(prox))
    case Raise(e) => (store, Some(e))
    case Ok(s1) =>
      match Write(s1, node, MOTOR_RIGHT, Scalar(prox))
      case Raise(e) => (s1, Some(e))
      case Ok(s2) =>
        match LedColour(prox)
        case None => (s2, None)
        case Some(c) =>
          match Write(s2, node, LEDS_TOP, Array(c))
          case Raise(e) => (s2, Some(e))
          case Ok(s3) => (s3, None)
  }

  /**
   * `HandAvoider._update` as a function: it never adds or removes a variable,
   * changes none but the node's motor and LED targets, only asks to stop when
   * it ran to the end, and every LED value it writes is an RGB triple in 0..32.
   */
  function UpdateEffect(store: Store, node: nat, proxPrev: Option<int>): (e: Effect)
    ensures e.store.Keys == store.Keys
    ensures forall k :: k in store && !IsOutput(node, k) ==> e.store[k] == store[k]
    ensures e.pressed ==> e.raised.None?
    ensures (node, LEDS_TOP) in store && e.store[(node, LEDS_TOP)] != store[(node, LEDS_TOP)] ==>
      var c := e.store[(node, LEDS_TOP)]; |c| == 3 && forall i :: 0 <= i < 3 ==> 0 <= c[i] <= 32
  {
    match ProxReading(store, node)
    case Raise(x) => Effect(store, proxPrev, false, Some(x))
    case Ok(p) =>
      if Some(p) == proxPrev then ButtonStep(store, node, proxPrev)
      else
        var (s, x) := WriteOutputs(store, node, p);
        if x.Some? then Effect(s, proxPrev, false, x) else ButtonStep(s, node, Some(p))
  }

  /** When `prox` equals `prox_prev`, nothing is written and `prox_prev` stays. */
  lemma EqualReadingWritesNothing(store: Store, node: nat, p: int)
    requires ProxReading(store, node) == Ok(p)
    ensures UpdateEffect(store, node, Some(p)).store == store
    ensures UpdateEffect(store, node, Some(p)).proxPrev == Some(p)
  {
  }

  /**
   * When `prox` differs from `prox_prev`, both motor targets become `prox`,
   * the LEDs take the threshold colour or keep their value, and `prox_prev`
   * becomes `prox`.
   */
  lemma ChangedReadingWrites(store: Store, node: nat, proxPrev: Option<int>)
    requires Wired(store, node) && ProxReading(store, node).Ok?
    requires proxPrev != Some(ProxReading(store, node).value)
    ensures var p, e := ProxReading(store, node).value, UpdateEffect(store, node, proxPrev);
      && e.raised == None
      && e.store[(node, MOTOR_LEFT)] == [p]
      && e.store[(node, MOTOR_RIGHT)] == [p]
      && e.store[(node, LEDS_TOP)] == (if LedColour(p).Some? then LedColour(p).value else store[(node, LEDS_TOP)])
      && e.proxPrev == Some(p)
  {
  }

  /**
   * The first update always writes both motors, since `prox_prev` starts as
   * `None`: only the proximity and motor variables need exist for that, as the
   * motor writes come before the LED write and the button read. With every
   * variable present, `prox_prev` also becomes `prox`.
   */
  lemma FirstUpdateWrites(store: Store, node: nat)
    requires ProxReading(store, node).Ok?
    requires (node, MOTOR_LEFT) in store && (node, MOTOR_RIGHT) in store
    ensures var p, e := ProxReading(store, node).value, UpdateEffect(store, node, None);
      e.store[(node, MOTOR_LEFT)] == [p] && e.store[(node, MOTOR_RIGHT)] == [p]
    ensures Wired(store, node) ==> UpdateEffect(store, node, None).proxPrev == Some(ProxReading(store, node).value)
  {
  }

  /** A truthy centre button asks to stop, whether or not `prox` changed. */
  lemma CentreButtonStops(store: Store, node: nat, proxPrev: Option<int>)
    requires Wired(store, node) && ProxReading(store, node).Ok?
    ensures UpdateEffect(store, node, proxPrev).raised == None
    ensures UpdateEffect(store, node, proxPrev).pressed <==> Truthy(Shape(store[(node, BUTTON_CENTER)]))
  {
  }

  /**
   * A second update on what the first left (same sensor readings) leaves the
   * same effect: writing again never changes anything.
   */
  lemma UpdateIsIdempotent(store: Store, node: nat, proxPrev: Option<int>)
    ensures var e := UpdateEffect(store, node, proxPrev);
      UpdateEffect(e.store, node, e.proxPrev) == e
  {
    var e := UpdateEffect(store, node, proxPrev);
    if ProxReading(store, node).Ok? {
      var p := ProxReading(store, node).value;
      if Some(p) != proxPrev {
        var (s, x) := WriteOutputs(store, node, p);
        assert (node, PROXIMITY_FRONT_BACK) in store ==> store[(node, PROXIMITY_FRONT_BACK)] == s[(node, PROXIMITY_FRONT_BACK)];
        assert ProxReading(s, node) == Ok(p);
        WriteOutputsIdempotent(store, node, p);
      }
    }
  }

  /** Writing the outputs for the same `prox` a second time changes nothing and fails the same way. */
  lemma WriteOutputsIdempotent(store: Store, node: nat, p: int)
    ensures WriteOutputs(WriteOutputs(store, node, p).0, node, p) == WriteOutputs(store, node, p)
  {
    var (s, x) := WriteOutputs(store, node, p);
    if (node, MOTOR_LEFT) in store {
      var s1 := store[(node, MOTOR_LEFT) := [p]];
      assert s[(node, MOTOR_LEFT)] == [p];
      assert s[(node, MOTOR_LEFT) := [p]] == s;
      if (node, MOTOR_RIGHT) in store {
        var s2 := s1[(node, MOTOR_RIGHT) := [p]];
        assert s[(node, MOTOR_RIGHT)] == [p];
        assert s[(node, MOTOR_RIGHT) := [p]] == s;
        if LedColour(p).Some? && (node, LEDS_TOP) in store {
          assert s[(node, LEDS_TOP) := LedColour(p).value] == s;
        }
      } else {
        assert s == s1;
      }
    }
  }

  /**
   * `k` refreshes whose sensor readings do not change: each runs the update on
   * what the previous one left, until one of them stops the observer.
   */
  function RefreshCycles(store: Store, node: nat, proxPrev: Option<int>, k: nat): Effect
    decreases k
  {
    var e := UpdateEffect(store, node, proxPrev);
    if k <= 1 || e.pressed then e else RefreshCycles(e.store, node, e.proxPrev, k - 1)
  }

  /** Repeated equal readings are idempotent: any number of refreshes leave what the first left. */
  lemma {:induction false} RepeatedRefreshes(store: Store, node: nat, proxPrev: Option<int>, k: nat)
    ensures RefreshCycles(store, node, proxPrev, k) == UpdateEffect(store, node, proxPrev)
    decreases k
  {
    var e := UpdateEffect(store, node, proxPrev);
    if k > 1 && !e.pressed {
      UpdateIsIdempotent(store, node, proxPrev);
      RepeatedRefreshes(e.store, node, e.proxPrev, k - 1);
    }
  }

  /** `HandAvoider`: a `ThymioObserver` whose update hook is `Update`. */
  class HandAvoider {
    const observer: ThymioObserver
    var proxPrev: Option<int>

    constructor ()
      ensures fresh(observer) && observer.Valid() && !observer.done && observer.thymio == null
      ensures proxPrev == None
    {
      observer := new ThymioObserver();
      proxPrev := None;
    }

    /**
     * `_observe` of the hand avoider: while the observer is not done it runs
     * `Update`; once done, nothing changes.
     */
    method Observe(node: nat) returns (updated: bool, raised: Option<Exception>)
      requires observer.Valid() && observer.thymio != null && observer.thymio.proxy
      modifies this`proxPrev, observer`done, observer.thymio`store, observer.thymio`observers
      ensures updated <==> !old(observer.done)
      ensures !updated ==>
        && observer.done
        && observer.thymio.store == old(observer.thymio.store)
        && proxPrev == old(proxPrev)
        && observer.thymio.observers == old(observer.thymio.observers)
        && raised == None
      ensures updated ==>
        var e := UpdateEffect(old(observer.thymio.store), observer.nodeId.value, old(proxPrev));
        && observer.thymio.store == e.store
        && proxPrev == e.proxPrev
        && raised == e.raised
        && observer.done == e.pressed
        && observer.thymio.observers ==
             if e.pressed then old(observer.thymio.observers)[observer.nodeId.value := NoOp]
             else old(observer.thymio.observers)
    {
      var callsUpdate, _ := observer.Observe(node);
      updated, raised := callsUpdate, None;
      if callsUpdate {
        raised := Update();
      }
    }

    /**
     * `_update`, run by a refresh event of the started observer: it leaves the
     * variables and `prox_prev` that `UpdateEffect` describes and, when the
     * centre button was pressed, stops the observer.
     */
    method Update() returns (raised: Option<Exception>)
      requires observer.Valid() && observer.thymio != null && observer.thymio.proxy
      modifies this`proxPrev, observer`done, observer.thymio`store, observer.thymio`observers
      ensures var e := UpdateEffect(old(observer.thymio.store), observer.nodeId.value, old(proxPrev));
        && observer.thymio.store == e.store
        && proxPrev == e.proxPrev
        && raised == e.raised
        && observer.done == (old(observer.done) || e.pressed)
        && observer.thymio.observers ==
             if e.pressed then old(observer.thymio.observers)[observer.nodeId.value := NoOp]
             else old(observer.thymio.observers)
    {
      var th, node := observer.thymio, observer.nodeId.value;
      var reading := th.Get(node, PROXIMITY_FRONT_BACK);
      if reading.Raise? {
        return Some(reading.exc);
      }
      var prox := ProxFrom(reading.value);
      if prox.Raise? {
        return Some(prox.exc);
      }
      var p := prox.value;
      if Some(p) != proxPrev {
        var w := th.Set(node, MOTOR_LEFT, Scalar(p));
        if w.Raise? {
          return Some(w.exc);
        }
        w := th.Set(node, MOTOR_RIGHT, Scalar(p));
        if w.Raise? {
          return Some(w.exc);
        }
        var colour := LedColour(p);
        if colour.Some? {
          w := th.Set(node, LEDS_TOP, Array(colour.value));
          if w.Raise? {
            return Some(w.exc);
          }
        }
        proxPrev := Some(p);
      }
      var button := th.Get(node, BUTTON_CENTER);
      if button.Raise? {
        return Some(button.exc);
      }
      raised := None;
      if Truthy(button.value) {
        observer.Stop();
      }
    }
  }
}
