/** Short runs of a fresh emitter, each from construction through its calls
    and the host loop, stating what the listeners see. */
module Scenarios {
  import opened JsValues
  import opened Listeners
  import opened Dispatch
  import opened Emitter

  /** `once` followed by two `emit`s before the loop runs: the adapter was
      queued twice, and each run calls the original listener, so a "once"
      listener is called twice. */
  method OnceTwoEmitsRunsTwice(f: Closure, a1: seq<Value>, a2: seq<Value>) returns (s1: Step, s2: Step)
    ensures s1 == Invoked(f, a1) && s2 == Invoked(f, a2)
  {
    var em := new EventEmitter();
    ghost var adapter := em.Once(Str("login"), Func(f), Undefined);
    assert "login" in em.events && em.events["login"] == [Subscription(adapter, Null)];
    var c1 := em.Emit("login", a1);
    var c2 := em.Emit("login", a2);
    assert em.pending == [Task(adapter, a1), Task(adapter, a2)];
    s1 := em.RunNext();
    s2 := em.RunNext();
  }

  /** `once`, `emit`, a turn of the loop, then another `emit`: the second
      `emit` queues nothing, since the adapter removed itself. */
  method OnceRunThenEmit(f: Closure, a1: seq<Value>, a2: seq<Value>) returns (s1: Step, s2: Step)
    ensures s1 == Invoked(f, a1) && s2 == Idle
  {
    var em := new EventEmitter();
    ghost var adapter := em.Once(Str("login"), Func(f), Undefined);
    assert "login" in em.events && em.events["login"] == [Subscription(adapter, Null)];
    var c1 := em.Emit("login", a1);
    assert em.pending == [Task(adapter, a1)];
    ghost var before := em.events;
    OffKeepsEmptiedList(before, "login", adapter);
    s1 := em.RunNext();
    assert em.events == before["login" := []] && em.pending == [];
    var c2 := em.Emit("login", a2);
    assert em.pending == [];
    s2 := em.RunNext();
  }

  /** `off(event, f)` after `once(event, f)` leaves the once registration in
      place: the next `emit` still reaches `f`. */
  method OffOriginalKeepsOnce(f: Closure, a: seq<Value>) returns (c: Completion, s: Step)
    ensures c == Normal && s == Invoked(f, a)
  {
    var em := new EventEmitter();
    ghost var adapter := em.Once(Str("login"), Func(f), Undefined);
    assert "login" in em.events && em.events["login"] == [Subscription(adapter, Null)];
    ghost var before := em.events;
    OffOriginalKeepsAdapter(before, "login", adapter, f, Null);
    c := em.Off([Str("login"), Func(f)]);
    assert Subscription(adapter, Null) in em.events["login"];
    var c1 := em.Emit("login", a);
    s := em.RunNext();
  }

  /** `once`, `emit`, then `off(event)` before the loop runs: the queued
      adapter finds no entry, its own `off` throws, and the listener is never
      called. */
  method OnceLostAfterOffEvent(f: Closure, a: seq<Value>) returns (s1: Step, s2: Step)
    ensures s1 == Failed(TypeError) && s2 == Idle
  {
    var em := new EventEmitter();
    ghost var adapter := em.Once(Str("login"), Func(f), Undefined);
    assert "login" in em.events && em.events["login"] == [Subscription(adapter, Null)];
    var c1 := em.Emit("login", a);
    assert em.pending == [Task(adapter, a)];
    ghost var before := em.events;
    var c2 := em.Off([Str("login")]);
    OffEventDeletesKey(before, "login");
    assert "login" !in em.events && em.pending == [Task(adapter, a)];
    AdapterFailsWithoutEntry(em.events, Task(adapter, a), "login", Func(f));
    s1 := em.RunNext();
    assert em.pending == [];
    s2 := em.RunNext();
  }

  /** The `'on' + event` property is called before the listeners. */
  method HandlerRunsFirst(h: Closure, f: Closure, a: seq<Value>) returns (s1: Step, s2: Step, s3: Step)
    requires h.code.UserCode? && f.code.UserCode?
    ensures s1 == Invoked(h, a) && s2 == Invoked(f, a) && s3 == Idle
  {
    var em := new EventEmitter();
    em.On(Str("login"), Func(f), Undefined);
    em.SetProperty("onlogin", Func(h));
    assert "on" + "login" == "onlogin";
    var c := em.Emit("login", a);
    s1 := em.RunNext();
    s2 := em.RunNext();
    s3 := em.RunNext();
  }

  /** An `error` event with no listeners and no `onerror` throws the error
      object it carries; once `onerror` is a function it is called instead. */
  method UnhandledError(err: JsObject, h: Closure) returns (c1: Completion, c2: Completion, s: Step)
    requires err.isError && h.code.UserCode?
    ensures c1 == Abrupt(Thrown(Obj(err)))
    ensures c2 == Normal && s == Invoked(h, [Obj(err)])
  {
    var em := new EventEmitter();
    c1 := em.Emit("error", [Obj(err)]);
    em.SetProperty("onerror", Func(h));
    assert "on" + "error" == "onerror";
    c2 := em.Emit("error", [Obj(err)]);
    s := em.RunNext();
  }

  /** Removing a listener by its observer alone leaves the other observer's
      listener in place. */
  method OffByObserver(f: Closure, g: Closure, o1: JsObject, o2: JsObject, a: seq<Value>)
    returns (s1: Step, s2: Step)
    requires o1 != o2 && g.code.UserCode?
    ensures s1 == Invoked(g, a) && s2 == Idle
  {
    var em := new EventEmitter();
    em.On(Str("login"), Func(f), Obj(o1));
    em.On(Str("login"), Func(g), Obj(o2));
    ghost var before := em.events["login"];
    var c := em.Off([Str("login"), Obj(o1)]);
    assert em.events["login"] == [Subscription(g, Obj(o2))] by {
      var flt := FilterOf(ClassifyOff([Str("login"), Obj(o1)]));
      assert flt == Filter(Bool(false), Obj(o1), false);
      assert before == [Subscription(f, Obj(o1)), Subscription(g, Obj(o2))];
      assert before[1..] == [Subscription(g, Obj(o2))];
      assert Survivors(before[1..], flt) == [Subscription(g, Obj(o2))];
    }
    var c1 := em.Emit("login", a);
    s1 := em.RunNext();
    s2 := em.RunNext();
  }
}
