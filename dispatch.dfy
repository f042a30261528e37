/** What `emit` does with the registry: whether it throws for an unhandled
    `error` event, and which deferred calls it queues and in what order; what
    running one queued call does; and how `emitEvent` decorates its payload. */
module Dispatch {
  import opened JsValues
  import opened Listeners

  /** A deferred call `func.apply(null, args)` waiting in the host's queue. */
  datatype Task = Task(fn: Closure, args: seq<Value>)

  /** What can be thrown: `args[0]`, the `args` array itself, or a
      `TypeError` raised by the runtime. */
  datatype Exception = Thrown(value: Value) | ThrownArgs(args: seq<Value>) | TypeError

  datatype Completion = Normal | Abrupt(error: Exception)

  /** What running the head of the queue amounts to: nothing was queued, an
      opaque user function was called with these arguments, or the call threw. */
  datatype Step = Idle | Invoked(callee: Closure, args: seq<Value>) | Failed(error: Exception)

  /** The result of the synchronous part of `emit`. */
  datatype Emission = Raise(error: Exception) | Scheduled(tasks: seq<Task>)

  /** The listeners of a list, each queued with the same arguments. */
  function Schedule(list: seq<Subscription>, args: seq<Value>): (ts: seq<Task>)
    ensures |ts| == |list|
  {
    if list == [] then []
    else Schedule(list[..|list| - 1], args) + [Task(list[|list| - 1].listener, args)]
  }

  lemma {:induction false} ScheduleAt(list: seq<Subscription>, args: seq<Value>, i: nat)
    requires i < |list|
    ensures Schedule(list, args)[i] == Task(list[i].listener, args)
    decreases |list|
  {
    var n := |list| - 1;
    if i < n {
      ScheduleAt(list[..n], args, i);
      assert list[..n][i] == list[i];
    }
  }

  lemma ScheduleSnoc(list: seq<Subscription>, sub: Subscription, args: seq<Value>)
    ensures Schedule(list + [sub], args) == Schedule(list, args) + [Task(sub.listener, args)]
  {
    var l := list + [sub];
    assert l[..|l| - 1] == list;
  }

  /** `emit('error')` throws when the event has no entry at all and the
      instance's `onerror` property is not a function. */
  predicate Unhandled(reg: Registry, slots: map<string, Value>, event: string)
  {
    event == "error" && event !in reg && !IsFunction(Prop(slots, "onerror"))
  }

  /** `throw args[0]` when it is an `Error`, otherwise `throw args`. */
  function Escalation(args: seq<Value>): (e: Exception)
    ensures e.Thrown? <==> ArgAt(args, 0).Obj? && ArgAt(args, 0).o.isError
    ensures e.Thrown? ==> |args| > 0 && e.value == args[0]
    ensures !e.Thrown? ==> e == ThrownArgs(args)
  {
    var a0 := ArgAt(args, 0);
    if a0.Obj? && a0.o.isError then Thrown(a0) else ThrownArgs(args)
  }

  /** The call queued for the instance's `'on' + event` property, if that is
      a function. */
  function HandlerTasks(slots: map<string, Value>, event: string, args: seq<Value>): seq<Task>
  {
    var h := Prop(slots, "on" + event);
    if IsFunction(h) then [Task(h.f, args)] else []
  }

  /** The synchronous part of `emit(event, ...args)`: throw for an unhandled
      `error`, otherwise queue the handler property first and then every
      listener of the event's list, all with `args`. */
  function EmitSpec(reg: Registry, slots: map<string, Value>, event: string, args: seq<Value>): (r: Emission)
    ensures r.Raise? <==> Unhandled(reg, slots, event)
    ensures r.Raise? ==> r.error == Escalation(args)
    ensures r.Scheduled? ==>
      |r.tasks| == |HandlerTasks(slots, event, args)| + |Lookup(reg, event)|
  {
    if Unhandled(reg, slots, event) then Raise(Escalation(args))
    else Scheduled(HandlerTasks(slots, event, args) + Schedule(Lookup(reg, event), args))
  }

  /** The calls `emit` queues: the handler property first, then the listeners
      in registration order, every one with the emitted arguments. */
  lemma {:induction false} EmitQueuesInOrder(reg: Registry, slots: map<string, Value>, event: string,
                                             args: seq<Value>, ts: seq<Task>)
    requires EmitSpec(reg, slots, event, args) == Scheduled(ts)
    ensures var h := HandlerTasks(slots, event, args);
      |h| <= |ts| && ts[..|h|] == h
    ensures var h := HandlerTasks(slots, event, args); var list := Lookup(reg, event);
      forall i :: 0 <= i < |list| ==> |h| + i < |ts| && ts[|h| + i] == Task(list[i].listener, args)
    ensures forall j :: 0 <= j < |ts| ==> ts[j].args == args
  {
    var h := HandlerTasks(slots, event, args);
    var list := Lookup(reg, event);
    var s := Schedule(list, args);
    assert ts == h + s;
    assert ts[..|h|] == h;
    forall i | 0 <= i < |list| ensures ts[|h| + i] == Task(list[i].listener, args) {
      assert ts[|h| + i] == s[i];
      ScheduleAt(list, args, i);
    }
    forall j | 0 <= j < |ts| ensures ts[j].args == args {
      if j < |h| {
        assert ts[j] == h[j];
      } else {
        var i := j - |h|;
        assert ts[|h| + i] == Task(list[i].listener, args);
      }
    }
  }

  /** Running a queued call. A user function is called opaquely. A once
      adapter first calls `off(event, adapter)` on its emitter (which may
      throw), then calls the original listener with the same arguments. */
  function RunTask(reg: Registry, t: Task): (Registry, Step)
  {
    match t.fn.code
    case UserCode(_) => (reg, Invoked(t.fn, t.args))
    case OnceAdapter(event, listener) =>
      match OffSpec(reg, [event, Func(t.fn)])
      case None => (reg, Failed(TypeError))
      case Some(after) =>
        (after, if IsFunction(listener) then Invoked(listener.f, t.args) else Failed(TypeError))
  }

  // ---------------------------------------------------------------------------
  // Properties of `emit` and of the once adapter

  /** An entry for `error`, even an empty list, or a callable `onerror`
      suppresses the throw; any other event never throws. */
  lemma EmitThrowsOnlyForUnhandledError(reg: Registry, slots: map<string, Value>, event: string, args: seq<Value>)
    ensures EmitSpec(reg, slots, event, args).Raise? <==>
      event == "error" && event !in reg && !Prop(slots, "onerror").Func?
  {
  }

  /** Listeners that `on` adds after an `emit` do not change what that `emit`
      queued: the next `emit` queues the old list followed by the new entry. */
  lemma EmitAfterOn(reg: Registry, slots: map<string, Value>, event: string, l: Closure, o: Value, args: seq<Value>)
    requires !Unhandled(reg, slots, event)
    ensures var r := OnSpec(reg, Str(event), Func(l), o);
      EmitSpec(r, slots, event, args).tasks ==
      EmitSpec(reg, slots, event, args).tasks + [Task(l, args)]
  {
    var r := OnSpec(reg, Str(event), Func(l), o);
    var list := Lookup(reg, event);
    var sub := Subscription(l, NormalizeObserver(o));
    assert Lookup(r, event) == list + [sub];
    ScheduleSnoc(list, sub, args);
  }

  /** Running a once adapter registered on `event` takes every entry with the
      adapter as listener out of that list, so a later `emit` does not queue it
      again; and it then calls the original listener. */
  lemma AdapterRemovesItself(reg: Registry, t: Task, event: string, listener: Value)
    requires t.fn.code == OnceAdapter(Str(event), listener)
    requires event in reg
    ensures RunTask(reg, t).0.Keys == reg.Keys
    ensures forall k :: k in reg && k != event ==> RunTask(reg, t).0[k] == reg[k]
    ensures forall x :: x in RunTask(reg, t).0[event] <==> x in reg[event] && x.listener != t.fn
    ensures forall x ::
              multiset(RunTask(reg, t).0[event])[x] == if x.listener == t.fn then 0 else multiset(reg[event])[x]
    ensures Subsequence(RunTask(reg, t).0[event], reg[event])
    ensures RunTask(reg, t).1 == if listener.Func? then Invoked(listener.f, t.args) else Failed(TypeError)
  {
    OffEventListener(reg, event, t.fn);
  }

  /** A once adapter whose event lost its entry before the adapter ran (say
      through `off(event)`) throws in its own `off` call, so the original
      listener is never called and the registry stays as it was. */
  lemma AdapterFailsWithoutEntry(reg: Registry, t: Task, event: string, listener: Value)
    requires t.fn.code == OnceAdapter(Str(event), listener)
    requires event !in reg
    ensures RunTask(reg, t) == (reg, Failed(TypeError))
  {
    OffMissingEventThrows(reg, event, t.fn);
  }

  /** A function with no entry in an event's list gets no call from that
      list when the event is emitted. */
  lemma EmitSkipsUnlisted(reg: Registry, slots: map<string, Value>, event: string, args: seq<Value>,
                          fn: Closure)
    requires forall x :: x in Lookup(reg, event) ==> x.listener != fn
    requires !Unhandled(reg, slots, event)
    ensures var ts := EmitSpec(reg, slots, event, args).tasks;
      forall i :: |HandlerTasks(slots, event, args)| <= i < |ts| ==> ts[i].fn != fn
  {
    var list := Lookup(reg, event);
    var h := HandlerTasks(slots, event, args);
    var s := Schedule(list, args);
    var ts := EmitSpec(reg, slots, event, args).tasks;
    assert ts == h + s;
    forall i | |h| <= i < |ts| ensures ts[i].fn != fn {
      var j := i - |h|;
      assert ts[i] == s[j];
      ScheduleAt(list, args, j);
      assert list[j] in list;
    }
  }

  /** After the adapter has run, an `emit` of its event queues no call to it
      from the event's list. */
  lemma NoRescheduleAfterAdapterRan(reg: Registry, slots: map<string, Value>, t: Task, event: string,
                                    listener: Value, args: seq<Value>)
    requires t.fn.code == OnceAdapter(Str(event), listener)
    requires event in reg
    ensures EmitSpec(RunTask(reg, t).0, slots, event, args).Scheduled?
    ensures var ts := EmitSpec(RunTask(reg, t).0, slots, event, args).tasks;
      forall i :: |HandlerTasks(slots, event, args)| <= i < |ts| ==> ts[i].fn != t.fn
  {
    AdapterRemovesItself(reg, t, event, listener);
    var after := RunTask(reg, t).0;
    assert event in after;
    assert Lookup(after, event) == after[event];
    EmitSkipsUnlisted(after, slots, event, args, t.fn);
  }

  /** `off(event, original)` does not remove a once registration: the stored
      listener is the adapter, not the original function. */
  lemma OffOriginalKeepsAdapter(reg: Registry, event: string, adapter: Closure, original: Closure,
                                o: ObserverValue)
    requires event in reg
    requires Subscription(adapter, o) in reg[event]
    requires adapter != original
    ensures OffSpec(reg, [Str(event), Func(original)]).Some?
    ensures Subscription(adapter, o) in OffSpec(reg, [Str(event), Func(original)]).value[event]
  {
    OffEventListener(reg, event, original);
  }

  // ---------------------------------------------------------------------------
  // `emitEvent`

  /** `eventObject.timeStamp || eventObject.timestamp || now` */
  function Stamp(props: map<string, Value>, now: int): Value
  {
    var a := Prop(props, "timeStamp");
    var b := Prop(props, "timestamp");
    if Truthy(a) then a else if Truthy(b) then b else Num(now)
  }

  /** The properties of the event object after `emitEvent(event, ...)`. */
  function Decorate(props: map<string, Value>, event: string, now: int): (p: map<string, Value>)
    ensures p.Keys == props.Keys + {"type", "timestamp"}
    ensures p["type"] == Str(event)
    ensures forall k :: k in props && k != "type" && k != "timestamp" ==> p[k] == props[k]
    ensures Truthy(Prop(props, "timeStamp")) ==> p["timestamp"] == props["timeStamp"]
    ensures !Truthy(Prop(props, "timeStamp")) && Truthy(Prop(props, "timestamp")) ==>
      p["timestamp"] == props["timestamp"]
    ensures !Truthy(Prop(props, "timeStamp")) && !Truthy(Prop(props, "timestamp")) ==>
      p["timestamp"] == Num(now)
  {
    var typed := props["type" := Str(event)];
    typed["timestamp" := Stamp(typed, now)]
  }

  /** A payload that is not an object travels as `{data: payload}`; with no
      stamp of its own it gets the clock reading. */
  lemma WrappedPayload(payload: Value, event: string, now: int)
    ensures Decorate(map["data" := payload], event, now) ==
      map["data" := payload, "type" := Str(event), "timestamp" := Num(now)]
  {
  }

  /** Decorating an object a second time keeps the first stamp when it is
      truthy (so re-emitting an event object does not restamp it), and only
      the type changes. */
  lemma RedecorateKeepsStamp(props: map<string, Value>, e1: string, e2: string, n1: int, n2: int)
    requires Truthy(Decorate(props, e1, n1)["timestamp"])
    ensures var once := Decorate(props, e1, n1);
      Decorate(once, e2, n2) == once["type" := Str(e2)]
  {
    var once := Decorate(props, e1, n1);
    var twice := Decorate(once, e2, n2);
    assert twice["timestamp"] == once["timestamp"];
    assert twice.Keys == once.Keys;
  }
}
