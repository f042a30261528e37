/** The emitter object: its private `__events` registry, the properties of
    the instance that `emit` consults as `'on' + event` handlers, and the
    host's queue of deferred calls, which `emit` appends to and `RunNext`
    drains one call at a time. */
module Emitter {
  import opened JsValues
  import opened Listeners
  import opened Dispatch

  class EventEmitter {
    /** `__events`, created empty with the instance. */
    var events: Registry
    /** The instance's own properties, by name; `emit` reads `'on' + event`. */
    var slots: map<string, Value>
    /** The calls handed to `setTimeout(..., 0)`, oldest first. */
    var pending: seq<Task>

    constructor ()
      ensures events == map[] && slots == map[] && pending == []
    {
      events := map[];
      slots := map[];
      pending := [];
    }

    /** Assigning a property of the instance, such as `emitter.onlogin = fn`. */
    method SetProperty(name: string, v: Value)
      modifies this
      ensures slots == old(slots)[name := v]
      ensures events == old(events) && pending == old(pending)
    {
      slots := slots[name := v];
    }

    /** `on(event, listener, observer)`: append one subscription when the
        event is a string and the listener a function; otherwise nothing. */
    method On(event: Value, listener: Value, observer: Value)
      modifies this
      ensures events == OnSpec(old(events), event, listener, observer)
      ensures slots == old(slots) && pending == old(pending)
    {
      var obs := NormalizeObserver(observer);
      if IsString(event) && IsFunction(listener) {
        var listeners := if event.s in events then events[event.s] else [];
        events := events[event.s := listeners + [Subscription(listener.f, obs)]];
      }
    }

    /** `once(event, listener, observer)`: register, through `on`, a fresh
        adapter that remembers the event and the listener. */
    method Once(event: Value, listener: Value, observer: Value) returns (ghost adapter: Closure)
      modifies this
      ensures fresh(adapter) && adapter.code == OnceAdapter(event, listener)
      ensures events == OnSpec(old(events), event, Func(adapter), observer)
      ensures slots == old(slots) && pending == old(pending)
    {
      var onceListener := new Closure(OnceAdapter(event, listener));
      On(event, Func(onceListener), observer);
      adapter := onceListener;
    }

    /** Splice out of the list of `key`, walking it backwards, every entry the
        filter hits. */
    method RemoveMatching(key: string, f: Filter)
      requires key in events
      modifies this
      ensures events == old(events)[key := Survivors(old(events)[key], f)]
      ensures slots == old(slots) && pending == old(pending)
    {
      var listeners := events[key];
      ghost var orig := listeners;
      var i := |listeners|;
      while i > 0
        invariant 0 <= i <= |orig|
        invariant listeners == orig[..i] + Survivors(orig[i..], f)
      {
        i := i - 1;
        assert orig[i..][0] == orig[i] && orig[i..][1..] == orig[i + 1..];
        assert listeners[i] == orig[i];
        if Hits(f, listeners[i]) {
          assert listeners[..i] == orig[..i];
          assert listeners[i + 1..] == Survivors(orig[i + 1..], f);
          listeners := listeners[..i] + listeners[i + 1..];
        } else {
          assert orig[..i + 1] == orig[..i] + [orig[i]];
        }
      }
      assert orig[..0] + Survivors(orig[0..], f) == Survivors(orig, f) by {
        assert orig[0..] == orig;
      }
      events := events[key := listeners];
    }

    /** `for (key in __events)`: filter every list. */
    method RemoveMatchingEverywhere(f: Filter)
      modifies this
      ensures events == FilterAll(old(events), f)
      ensures slots == old(slots) && pending == old(pending)
    {
      var keys := events.Keys;
      while keys != {}
        invariant keys <= old(events).Keys
        invariant events.Keys == old(events).Keys
        invariant forall k :: k in events ==>
          events[k] == if k in keys then old(events)[k] else Survivors(old(events)[k], f)
        invariant slots == old(slots) && pending == old(pending)
        decreases keys
      {
        var key :| key in keys;
        RemoveMatching(key, f);
        keys := keys - {key};
      }
      assert events == FilterAll(old(events), f);
    }

    /** `for (key in __events) delete __events[key]` */
    method DeleteEveryKey()
      modifies this
      ensures events == map[]
      ensures slots == old(slots) && pending == old(pending)
    {
      var keys := events.Keys;
      while keys != {}
        invariant events.Keys == keys
        invariant slots == old(slots) && pending == old(pending)
        decreases keys
      {
        var key :| key in keys;
        events := events - {key};
        keys := keys - {key};
      }
      assert events == map[];
    }

    /** `off(...)`: classify the arguments, then take one of five branches.
        The per-event filters throw a `TypeError` when the event has no entry;
        nothing has changed at that point. */
    method Off(args: seq<Value>) returns (c: Completion)
      modifies this
      ensures OffSpec(old(events), args).Some? ==>
        c == Normal && events == OffSpec(old(events), args).value
      ensures OffSpec(old(events), args).None? ==>
        c == Abrupt(TypeError) && events == old(events)
      ensures slots == old(slots) && pending == old(pending)
    {
      var a := ClassifyOff(args);
      c := Normal;
      if IsString(a.event) {
        if IsFunction(a.listener) && IsObject(a.observer) {
          if a.event.s !in events {
            c := Abrupt(TypeError);
            return;
          }
          RemoveMatching(a.event.s, Filter(a.listener, a.observer, true));
        } else if IsFunction(a.listener) || IsObject(a.observer) {
          if a.event.s !in events {
            c := Abrupt(TypeError);
            return;
          }
          RemoveMatching(a.event.s, Filter(a.listener, a.observer, false));
        } else {
          events := events - {a.event.s};
        }
      } else if IsFunction(a.listener) || IsObject(a.observer) {
        RemoveMatchingEverywhere(Filter(a.listener, a.observer, false));
      } else {
        DeleteEveryKey();
      }
    }

    /** `emit(event, ...args)`: throw for an unhandled `error`; otherwise
        queue the `'on' + event` handler, then every listener of the event in
        order, all with `args`. The registry does not change. */
    method Emit(event: string, args: seq<Value>) returns (c: Completion)
      modifies this
      ensures events == old(events) && slots == old(slots)
      ensures EmitSpec(events, slots, event, args).Raise? ==>
        c == Abrupt(EmitSpec(events, slots, event, args).error) && pending == old(pending)
      ensures EmitSpec(events, slots, event, args).Scheduled? ==>
        c == Normal && pending == old(pending) + EmitSpec(events, slots, event, args).tasks
    {
      if event == "error" && event !in events && !IsFunction(Prop(slots, "onerror")) {
        c := Abrupt(Escalation(args));
        return;
      }
      c := Normal;
      var handler := Prop(slots, "on" + event);
      if IsFunction(handler) {
        pending := pending + [Task(handler.f, args)];
      }
      ghost var queued := pending;
      if event in events {
        var listeners := events[event];
        var length := |listeners|;
        var i := 0;
        while i < length
          invariant 0 <= i <= length
          invariant pending == queued + Schedule(listeners[..i], args)
          invariant events == old(events) && slots == old(slots)
        {
          assert listeners[..i + 1][..i] == listeners[..i];
          pending := pending + [Task(listeners[i].listener, args)];
          i := i + 1;
        }
        assert listeners[..length] == listeners;
      }
    }

    /** `emitEvent(event, payload)`: wrap a payload that is not an object as
        `{data: payload}`, set `type` to the event and `timestamp` to
        `timeStamp || timestamp || now` on that object, then emit it as the
        only argument. A `null` payload passes the object test and then fails
        on the first property write. */
    method EmitEvent(event: string, payload: Value, now: int) returns (c: Completion, ghost sent: Value)
      modifies this, if payload.Obj? then {payload.o} else {}
      ensures events == old(events) && slots == old(slots)
      ensures payload.Null? ==> c == Abrupt(TypeError) && pending == old(pending)
      ensures payload.Obj? ==> sent == payload && payload.o.props == Decorate(old(payload.o.props), event, now)
      ensures !IsObject(payload) ==>
        && sent.Obj? && fresh(sent.o) && !sent.o.isError
        && sent.o.props == Decorate(map["data" := payload], event, now)
      ensures !payload.Null? && EmitSpec(events, slots, event, [sent]).Raise? ==>
        c == Abrupt(EmitSpec(events, slots, event, [sent]).error) && pending == old(pending)
      ensures !payload.Null? && EmitSpec(events, slots, event, [sent]).Scheduled? ==>
        c == Normal && pending == old(pending) + EmitSpec(events, slots, event, [sent]).tasks
    {
      var eventObject: JsObject;
      if payload.Null? {
        c := Abrupt(TypeError);
        sent := payload;
        return;
      } else if payload.Obj? {
        eventObject := payload.o;
      } else {
        eventObject := new JsObject(false, map["data" := payload]);
      }
      eventObject.props := eventObject.props["type" := Str(event)];
      eventObject.props := eventObject.props["timestamp" := Stamp(eventObject.props, now)];
      sent := Obj(eventObject);
      c := Emit(event, [Obj(eventObject)]);
    }

    /** One turn of the host's loop: take the oldest queued call and run it.
        A once adapter runs `off(event, adapter)` on this emitter and then
        calls the original listener; any other function is user code. */
    method RunNext() returns (step: Step)
      modifies this
      ensures slots == old(slots)
      ensures old(pending) == [] ==> step == Idle && events == old(events) && pending == []
      ensures old(pending) != [] ==>
        && pending == old(pending)[1..]
        && events == RunTask(old(events), old(pending)[0]).0
        && step == RunTask(old(events), old(pending)[0]).1
    {
      if pending == [] {
        return Idle;
      }
      var task := pending[0];
      pending := pending[1..];
      match task.fn.code
      case UserCode(_) =>
        step := Invoked(task.fn, task.args);
      case OnceAdapter(event, listener) =>
        var c := Off([event, Func(task.fn)]);
        if c.Abrupt? {
          step := Failed(c.error);
        } else if IsFunction(listener) {
          step := Invoked(listener.f, task.args);
        } else {
          step := Failed(TypeError);
        }
    }
  }
}
