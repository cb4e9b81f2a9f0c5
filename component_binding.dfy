/**
 * Cross-instance bindings (src/shared/createComponentBinding.js).
 *
 * A binding watches one keypath of its own instance's viewmodel and copies
 * every new value to a keypath of another instance. A component mapping
 * creates one parent-to-child binding and, for a two-way component, a
 * child-to-parent binding as well; the two halves of such a pair are each
 * other's counterpart, and their `updating` flags stop a write from echoing
 * back.
 *
 * The viewmodel is reduced to what a binding uses: its data, the log of the
 * writes it received, and its registered bindings. It tells the bindings
 * that watch a keypath of a new value synchronously, inside the write, which
 * is the situation the `updating` guards exist for. The batching scheduler
 * is reduced to the list of its `addInstance` calls.
 */
module ComponentBindings {

  type Keypath = string

  /** A data value; only arrays carry the `_ractive.setting` marker of a smart array update. */
  datatype Value = Undefined | Atom(token: nat) | ArrayValue(token: nat, setting: bool)

  /** One write recorded by a viewmodel. */
  datatype Write = Write(keypath: Keypath, value: Value)

  datatype Error = NoCounterpart   // rebind of a binding without counterpart reads a field of undefined

  datatype Outcome = Done | Fail(error: Error)

  /** The scheduler, as the log of instances it was asked to update this turn. */
  class Runloop {
    var instances: seq<Instance>

    constructor ()
      ensures instances == []
    {
      instances := [];
    }

    /** runloop.addInstance */
    method AddInstance(instance: Instance)
      modifies this`instances
      ensures instances == old(instances) + [instance]
    {
      instances := instances + [instance];
    }
  }

  /** A Ractive instance: its viewmodel and whether it is a two-way component. */
  class Instance {
    const viewmodel: Viewmodel
    const twoway: bool

    constructor (viewmodel: Viewmodel, twoway: bool)
      ensures this.viewmodel == viewmodel && this.twoway == twoway
    {
      this.viewmodel := viewmodel;
      this.twoway := twoway;
    }
  }

  /** The data-model store of one instance. */
  class Viewmodel {
    var data: map<Keypath, Value>
    var writes: seq<Write>
    var observers: set<Binding>

    constructor (data: map<Keypath, Value>)
      ensures this.data == data && writes == [] && observers == {}
    {
      this.data := data;
      writes := [];
      observers := {};
    }

    /** viewmodel.get */
    function Get(k: Keypath): Value
      reads this`data
    {
      if k in data then data[k] else Undefined
    }

    /** The registered bindings that watch `k`. */
    function Watchers(k: Keypath): set<Binding>
      reads this`observers, observers`keypath
    {
      set b | b in observers && b.keypath == k
    }

    /** Nobody watches `k`: every observer watches another keypath (what `Map` needs for `PairQuiet`). */
    lemma Unwatched(k: Keypath)
      requires Watchers(k) == {}
      ensures forall b <- observers :: b.keypath != k
    {
      forall b <- observers
        ensures b.keypath != k
      {
        assert b !in Watchers(k);
      }
    }

    /** viewmodel.register */
    method Register(b: Binding)
      modifies this`observers
      ensures observers == old(observers) + {b}
    {
      observers := observers + {b};
    }

    /** viewmodel.unregister */
    method Unregister(b: Binding)
      modifies this`observers
      ensures observers == old(observers) - {b}
    {
      observers := observers - {b};
    }

    /**
     * viewmodel.set: stores and records the write, then tells each binding
     * that watches `k` the new value. Whatever the bindings do, every flag
     * ends as it was and logs only grow; when none of them is free to act,
     * this write is the only one and only the watchers' values move, to `v`.
     */
    method Set(k: Keypath, v: Value, isEqual: (Value, Value) -> bool,
               ghost bs: set<Binding>, ghost vms: set<Viewmodel>, runloop: Runloop)
      requires this in vms && Ready(bs, vms)
      modifies bs`value, bs`updating, vms`data, vms`writes, runloop`instances
      decreases Idle(bs), 5
      ensures Steady(old(Snap(bs, vms, runloop)), Snap(bs, vms, runloop))
      ensures Wrote(this, k, v, old(Quiet(bs, this, k, Flags(bs))), old(Watchers(k)),
                    old(Snap(bs, vms, runloop)), Snap(bs, vms, runloop))
    {
      ghost var s0 := Snap(bs, vms, runloop);
      ghost var quiet, watchers := Quiet(bs, this, k, s0.flags), Watchers(k);
      Record(k, v, bs, vms, runloop);
      ghost var s1 := Snap(bs, vms, runloop);
      Notify(k, v, isEqual, bs, vms, runloop, quiet, watchers);
      WroteFirst(this, k, v, quiet, watchers, s0, s1, Snap(bs, vms, runloop));
    }

    /**
     * The loop of viewmodel.set: every binding that watches `k` is told `v`.
     * When none of them is free to act (`quiet`), only their values move.
     * Split out of `Set` only to keep each proof small.
     */
    method Notify(k: Keypath, v: Value, isEqual: (Value, Value) -> bool,
                  ghost bs: set<Binding>, ghost vms: set<Viewmodel>, runloop: Runloop,
                  ghost quiet: bool, ghost watchers: set<Binding>)
      requires this in vms && Ready(bs, vms) && watchers == Watchers(k)
      requires quiet ==> Quiet(bs, this, k, Flags(bs))
      modifies bs`value, bs`updating, vms`data, vms`writes, runloop`instances
      decreases Idle(bs), 4
      ensures Steady(old(Snap(bs, vms, runloop)), Snap(bs, vms, runloop))
      ensures quiet ==> Echoed(old(Snap(bs, vms, runloop)), Snap(bs, vms, runloop), watchers, v)
    {
      ghost var s1 := Snap(bs, vms, runloop);
      var pending := Watchers(k);
      while pending != {}
        invariant pending <= watchers <= bs
        invariant Steady(s1, Snap(bs, vms, runloop))
        invariant quiet ==> Echoed(s1, Snap(bs, vms, runloop), watchers, v)
        decreases pending
      {
        var b :| b in pending;
        pending := pending - {b};
        Tell(b, v, isEqual, bs, vms, runloop, s1, quiet, watchers);
      }
    }

    /**
     * One turn of the loop: `b.setValue(v)`. A watcher that is not free to
     * act either ignores `v` or only records it (its guards are
     * createComponentBinding.js:21-31). Split out of `Notify` only to keep
     * each proof small.
     */
    method Tell(b: Binding, v: Value, isEqual: (Value, Value) -> bool,
                ghost bs: set<Binding>, ghost vms: set<Viewmodel>, runloop: Runloop,
                ghost s1: Snapshot, ghost quiet: bool, ghost watchers: set<Binding>)
      requires b in watchers && watchers <= bs && Ready(bs, vms)
      requires Steady(s1, Snap(bs, vms, runloop)) && (quiet ==> Echoed(s1, Snap(bs, vms, runloop), watchers, v))
      requires quiet ==> b in s1.flags || b.counterpart in s1.flags
      modifies bs`value, bs`updating, vms`data, vms`writes, runloop`instances
      decreases Idle(bs), 3
      ensures Steady(s1, Snap(bs, vms, runloop)) && (quiet ==> Echoed(s1, Snap(bs, vms, runloop), watchers, v))
    {
      ghost var s := Snap(bs, vms, runloop);
      assert b in s.flags <==> b.updating;
      assert b.counterpart != null ==> (b.counterpart in s.flags <==> b.counterpart.updating);
      ghost var skips := b.Skips(v, isEqual);
      assert quiet ==> skips || b.Echo();
      b.SetValue(v, isEqual, bs, vms, runloop);
      SetStep(s1, s, Snap(bs, vms, runloop), quiet, skips, watchers, b, v);
    }

    /** `this.data[k] = v` and the write logged: the first half of `Set`. */
    method Record(k: Keypath, v: Value, ghost bs: set<Binding>, ghost vms: set<Viewmodel>, runloop: Runloop)
      requires this in vms
      modifies this`data, this`writes
      ensures data == old(data)[k := v] && writes == old(writes) + [Write(k, v)]
      ensures var s0 := old(Snap(bs, vms, runloop));
              Snap(bs, vms, runloop) == s0.(stores := Written(s0.stores, this, k, v))
    {
      data := data[k := v];
      writes := writes + [Write(k, v)];
    }
  }

  /**
   * The bindings `bs` and viewmodels `vms` are closed: every binding writes
   * to a viewmodel of `vms`, has its counterpart (another binding) in `bs`,
   * and every viewmodel only holds bindings of `bs`.
   */
  ghost predicate Ready(bs: set<Binding>, vms: set<Viewmodel>)
    reads bs`counterpart, vms`observers
  {
    (forall b <- bs :: b.otherInstance.viewmodel in vms) &&
    (forall b {:trigger b.counterpart} :: b in bs && b.counterpart != null ==> b.counterpart in bs && b.counterpart != b) &&
    (forall m <- vms :: m.observers <= bs)
  }

  /** The part of a viewmodel that a write changes. */
  datatype Store = Store(data: map<Keypath, Value>, writes: seq<Write>)

  /**
   * Everything a write through a binding can change: the last synced value
   * and the `updating` flag of every binding, the data and write log of
   * every viewmodel, and the scheduler's log.
   */
  datatype Snapshot = Snapshot(values: map<Binding, Value>, flags: set<Binding>,
                               stores: map<Viewmodel, Store>, sched: seq<Instance>)

  /** The bindings of `bs` in the middle of a setValue. */
  ghost function Flags(bs: set<Binding>): set<Binding>
    reads bs`updating
  {
    set b | b in bs && b.updating
  }

  /** The last synced value of every binding of `bs`. */
  ghost function Values(bs: set<Binding>): map<Binding, Value>
    reads bs`value
  {
    map b | b in bs :: b.value
  }

  /** The data and write log of every viewmodel of `vms`. */
  ghost function Stores(vms: set<Viewmodel>): map<Viewmodel, Store>
    reads vms`data, vms`writes
  {
    map m | m in vms :: Store(m.data, m.writes)
  }

  /** The current state of `bs`, `vms` and `runloop`. */
  ghost function Snap(bs: set<Binding>, vms: set<Viewmodel>, runloop: Runloop): Snapshot
    reads bs`value, bs`updating, vms`data, vms`writes, runloop`instances
  {
    Snapshot(Values(bs), Flags(bs), Stores(vms), runloop.instances)
  }

  /** How many bindings are not in the middle of a `setValue`. */
  ghost function Idle(bs: set<Binding>): nat
    reads bs`updating
  {
    |bs - Flags(bs)|
  }

  /** Raising the flag of an idle binding leaves fewer idle ones. */
  lemma FewerIdle(bs: set<Binding>, flags: set<Binding>, b: Binding)
    requires b in bs && b !in flags
    ensures |bs - (flags + {b})| < |bs - flags|
  {
    assert bs - flags == (bs - (flags + {b})) + {b};
  }

  /** No binding that watches `k` on `m` is free to write: it or its counterpart is updating. */
  ghost predicate Quiet(bs: set<Binding>, m: Viewmodel, k: Keypath, busy: set<Binding>)
    reads m`observers, bs`keypath, bs`counterpart
  {
    forall b <- m.observers :: b in bs && b.keypath == k ==> b in busy || b.counterpart in busy
  }

  /** Between `before` and `after`, no value of a binding in `fixed` changed. */
  ghost predicate Settled(before: map<Binding, Value>, after: map<Binding, Value>, fixed: set<Binding>) {
    after.Keys == before.Keys && forall b {:trigger after[b]} :: b in fixed && b in before ==> after[b] == before[b]
  }

  /** Between `before` and `after`, only values of bindings in `moved` changed, each to `v`. */
  ghost predicate Moved(before: map<Binding, Value>, after: map<Binding, Value>, moved: set<Binding>, v: Value) {
    after.Keys == before.Keys &&
    forall b {:trigger after[b]} :: b in before ==> after[b] == before[b] || (b in moved && after[b] == v)
  }

  /** Write logs only grew. */
  ghost predicate Grown(before: map<Viewmodel, Store>, after: map<Viewmodel, Store>) {
    after.Keys == before.Keys && forall m {:trigger after[m]} :: m in before ==> before[m].writes <= after[m].writes
  }

  /** Flags end as they were, flagged bindings keep their values, logs only grow. */
  ghost predicate Steady(s0: Snapshot, s1: Snapshot) {
    s1.flags == s0.flags && Settled(s0.values, s1.values, s0.flags) &&
    Grown(s0.stores, s1.stores) && s0.sched <= s1.sched
  }

  /** Nothing was scheduled or written, and only `watchers` moved, to `v`. */
  ghost predicate Echoed(s0: Snapshot, s1: Snapshot, watchers: set<Binding>, v: Value) {
    s1.sched == s0.sched && s1.stores == s0.stores && Moved(s0.values, s1.values, watchers, v)
  }

  /** `stores` once `m` has stored and recorded the write of `v` to `k`. */
  ghost function Written(stores: map<Viewmodel, Store>, m: Viewmodel, k: Keypath, v: Value): map<Viewmodel, Store>
    requires m in stores
  {
    stores[m := Store(stores[m].data[k := v], stores[m].writes + [Write(k, v)])]
  }

  /** The first write `m` received after `stores0` is `w`. */
  ghost predicate FirstWrite(stores0: map<Viewmodel, Store>, stores1: map<Viewmodel, Store>, m: Viewmodel, w: Write) {
    m in stores0 && m in stores1 &&
    |stores1[m].writes| > |stores0[m].writes| && stores1[m].writes[|stores0[m].writes|] == w
  }

  /**
   * The effect of viewmodel.set on `m`: `v` at `k` is the first write `m`
   * received; when no watcher was free to act (`quiet`), it is the only
   * change besides the `watchers` moving to `v`.
   */
  ghost predicate Wrote(m: Viewmodel, k: Keypath, v: Value, quiet: bool, watchers: set<Binding>,
                        s0: Snapshot, s1: Snapshot) {
    FirstWrite(s0.stores, s1.stores, m, Write(k, v)) &&
    (quiet ==> m in s0.stores && Echoed(s0.(stores := Written(s0.stores, m, k, v)), s1, watchers, v))
  }

  /** The first instance scheduled is `other`, and the first write its viewmodel received is `v` at `key`. */
  ghost predicate Scheduled(v: Value, other: Instance, key: Keypath, s0: Snapshot, s1: Snapshot) {
    |s1.sched| > |s0.sched| && s1.sched[|s0.sched|] == other &&
    FirstWrite(s0.stores, s1.stores, other.viewmodel, Write(key, v))
  }

  /**
   * The effect of a setValue of `v` on binding `b`, writing to `key`, that
   * is not ignored: `v` is recorded; when the counterpart was updating
   * (`echo`) that is all; otherwise the other instance is scheduled and `v`
   * written to `key` first; and when only `b` and its counterpart watched
   * that keypath (`quiet`), that write and the moves of its `watchers` to
   * `v` are all.
   */
  ghost predicate Propagation(v: Value, b: Binding, key: Keypath, echo: bool, quiet: bool, watchers: set<Binding>,
                              s0: Snapshot, s1: Snapshot) {
    var other := b.otherInstance;
    b in s1.values && s1.values[b] == v &&
    (echo ==> s1 == s0.(values := s0.values[b := v])) &&
    (!echo ==> Scheduled(v, other, key, s0, s1)) &&
    (!echo && quiet ==>
       other.viewmodel in s0.stores &&
       Echoed(s0.(stores := Written(s0.stores, other.viewmodel, key, v), sched := s0.sched + [other]),
              s1, watchers + {b}, v))
  }

  lemma SettledTrans(a: map<Binding, Value>, b: map<Binding, Value>, c: map<Binding, Value>, fixed: set<Binding>)
    requires Settled(a, b, fixed) && Settled(b, c, fixed)
    ensures Settled(a, c, fixed)
  {
    forall x | x in fixed && x in a
      ensures c[x] == a[x]
    {
      assert c[x] == b[x];
    }
  }

  lemma MovedTrans(a: map<Binding, Value>, b: map<Binding, Value>, c: map<Binding, Value>, moved: set<Binding>,
                   v: Value)
    requires Moved(a, b, moved, v) && Moved(b, c, moved, v)
    ensures Moved(a, c, moved, v)
  {
    forall x | x in a
      ensures c[x] == a[x] || (x in moved && c[x] == v)
    {
      assert c[x] == b[x] || (x in moved && c[x] == v);
    }
  }

  /** Recording `v` for `b` as well keeps a round of moves to `v`. */
  lemma MovedStep(a: map<Binding, Value>, b: map<Binding, Value>, moved: set<Binding>, x: Binding, v: Value)
    requires Moved(a, b, moved, v) && x in b
    ensures Moved(a, b[x := v], moved + {x}, v)
  {
  }

  lemma GrownTrans(a: map<Viewmodel, Store>, b: map<Viewmodel, Store>, c: map<Viewmodel, Store>)
    requires Grown(a, b) && Grown(b, c)
    ensures Grown(a, c)
  {
    forall m | m in a
      ensures a[m].writes <= c[m].writes
    {
      assert a[m].writes <= b[m].writes <= c[m].writes;
    }
  }

  lemma SteadyTrans(s0: Snapshot, s1: Snapshot, s2: Snapshot)
    requires Steady(s0, s1) && Steady(s1, s2)
    ensures Steady(s0, s2)
  {
    SettledTrans(s0.values, s1.values, s2.values, s0.flags);
    GrownTrans(s0.stores, s1.stores, s2.stores);
  }

  /**
   * One turn of viewmodel.set's loop: the watcher `b` was told `v`. When no
   * watcher is free to act, `b` either ignored it or only recorded `v`.
   */
  lemma SetStep(s1: Snapshot, s: Snapshot, s': Snapshot, quiet: bool, skips: bool, watchers: set<Binding>,
                b: Binding, v: Value)
    requires Steady(s1, s) && Steady(s, s')
    requires quiet ==> Echoed(s1, s, watchers, v) && b in watchers && b in s.values
    requires quiet && skips ==> s' == s
    requires quiet && !skips ==> s' == s.(values := s.values[b := v])
    ensures Steady(s1, s')
    ensures quiet ==> Echoed(s1, s', watchers, v)
  {
    SteadyTrans(s1, s, s');
    if quiet && !skips {
      MovedStep(s1.values, s.values, watchers, b, v);
      assert watchers + {b} == watchers;
    }
  }

  /** The write recorded first stays first however the logs grow afterwards. */
  lemma WroteFirst(m: Viewmodel, k: Keypath, v: Value, quiet: bool, watchers: set<Binding>,
                   s0: Snapshot, s1: Snapshot, s2: Snapshot)
    requires m in s0.stores && s1 == s0.(stores := Written(s0.stores, m, k, v))
    requires Steady(s1, s2) && (quiet ==> Echoed(s1, s2, watchers, v))
    ensures Steady(s0, s2) && Wrote(m, k, v, quiet, watchers, s0, s2)
  {
    assert Grown(s0.stores, s1.stores);
    GrownTrans(s0.stores, s1.stores, s2.stores);
    assert s1.stores[m].writes <= s2.stores[m].writes;
  }

  /** Scheduling the other instance and then its viewmodel's write make up the forwarding of `v`. */
  lemma ForwardHolds(v: Value, other: Instance, key: Keypath, s0: Snapshot, s1: Snapshot)
    requires Steady(s0.(sched := s0.sched + [other]), s1)
    requires FirstWrite(s0.stores, s1.stores, other.viewmodel, Write(key, v))
    ensures Steady(s0, s1) && Scheduled(v, other, key, s0, s1)
  {
    assert s1.sched[|s0.sched|] == (s0.sched + [other])[|s0.sched|];
  }

  /** Composes forward (unless `echo`) and lower into the effect of a setValue that is not ignored. */
  lemma PropagationHolds(v: Value, b: Binding, key: Keypath, echo: bool, quiet: bool, watchers: set<Binding>,
                         s0: Snapshot, s1: Snapshot, s2: Snapshot)
    requires b !in s0.flags && b in s0.values
    requires echo ==> s1 == s0.(flags := s0.flags + {b})
    requires !echo ==> Steady(s0.(flags := s0.flags + {b}), s1) && Scheduled(v, b.otherInstance, key, s0, s1)
    requires !echo && quiet ==>
               var other := b.otherInstance;
               other.viewmodel in s0.stores &&
               Echoed(s0.(stores := Written(s0.stores, other.viewmodel, key, v), sched := s0.sched + [other]),
                      s1, watchers, v)
    requires s2 == s1.(values := s1.values[b := v], flags := s1.flags - {b})
    ensures Steady(s0, s2) && Propagation(v, b, key, echo, quiet, watchers, s0, s2)
  {
    if !echo && quiet {
      MovedStep(s0.values, s1.values, watchers, b, v);
    }
  }

  class Binding {
    const root: Instance
    var keypath: Keypath
    const priority: nat
    const otherInstance: Instance
    var otherKeypath: Keypath
    var counterpart: Binding?
    /** The last value synced. */
    var value: Value
    var updating: bool

    /**
     * Binding(ractive, keypath, otherInstance, otherKeypath, priority):
     * registers the new binding with its own viewmodel and takes the current
     * value there as the last one synced.
     */
    constructor (ractive: Instance, keypath: Keypath, otherInstance: Instance, otherKeypath: Keypath, priority: nat)
      modifies ractive.viewmodel`observers
      ensures root == ractive && this.keypath == keypath && this.otherInstance == otherInstance
      ensures this.otherKeypath == otherKeypath && this.priority == priority
      ensures counterpart == null && !updating
      ensures ractive.viewmodel.observers == old(ractive.viewmodel.observers) + {this}
      ensures value == ractive.viewmodel.Get(keypath)
    {
      root := ractive;
      this.keypath := keypath;
      this.priority := priority;
      this.otherInstance := otherInstance;
      this.otherKeypath := otherKeypath;
      counterpart := null;
      value := Undefined;
      updating := false;
      new;
      ractive.viewmodel.Register(this);
      value := root.viewmodel.Get(this.keypath);
    }

    /**
     * A binding as `new Binding(ractive, keypath, other, otherKeypath,
     * priority)` leaves it: idle, and holding the value found at `keypath`.
     */
    predicate Half(ractive: Instance, keypath: Keypath, other: Instance, otherKeypath: Keypath, priority: nat)
      reads this`keypath, this`otherKeypath, this`value, this`updating, ractive.viewmodel`data
    {
      root == ractive && this.keypath == keypath && otherInstance == other &&
      this.otherKeypath == otherKeypath && this.priority == priority &&
      !updating && value == ractive.viewmodel.Get(keypath)
    }

    /** The guards under which setValue returns at once; `isEqual` is the abstract deep equality. */
    predicate Skips(v: Value, isEqual: (Value, Value) -> bool)
      reads this`updating, this`value
    {
      updating || (v.ArrayValue? && v.setting) || isEqual(v, value)
    }

    /** The counterpart is in the middle of its own setValue. */
    predicate Echo()
      reads this`counterpart, counterpart
    {
      counterpart != null && counterpart.updating
    }

    /** Every binding registered where this one writes, and watching what it writes, is this one or its counterpart. */
    ghost predicate QuietTarget()
      reads this`otherKeypath, otherInstance.viewmodel`observers, otherInstance.viewmodel.observers
    {
      forall b <- otherInstance.viewmodel.observers :: b.keypath == otherKeypath ==> b == this || b.counterpart == this
    }

    /**
     * setValue: ignored while updating, for a smart array update, or for a
     * value equal to the last one synced. Otherwise the value is recorded
     * and, unless the counterpart is itself updating, the other instance is
     * scheduled and the value written to the other keypath before anything
     * else is written there. When no binding but this one and its
     * counterpart watches that keypath, that write is the only one: nothing
     * is written back.
     */
    method SetValue(v: Value, isEqual: (Value, Value) -> bool,
                    ghost bs: set<Binding>, ghost vms: set<Viewmodel>, runloop: Runloop)
      requires this in bs && Ready(bs, vms)
      modifies bs`value, bs`updating, vms`data, vms`writes, runloop`instances
      decreases Idle(bs), 2
      ensures Steady(old(Snap(bs, vms, runloop)), Snap(bs, vms, runloop))
      ensures old(Skips(v, isEqual)) ==> Snap(bs, vms, runloop) == old(Snap(bs, vms, runloop))
      ensures !old(Skips(v, isEqual)) ==>
                Propagation(v, this, otherKeypath, old(Echo()), old(QuietTarget()),
                            old(otherInstance.viewmodel.Watchers(otherKeypath)),
                            old(Snap(bs, vms, runloop)), Snap(bs, vms, runloop))
    {
      if updating {
        return;
      }
      if v.ArrayValue? && v.setting {
        return;
      }
      if !isEqual(v, value) {
        Propagate(v, isEqual, bs, vms, runloop);
      }
    }

    /**
     * createComponentBinding.js:32-47, the unguarded part of setValue: the
     * flag is raised around the forwarding, then the value recorded.
     */
    method Propagate(v: Value, isEqual: (Value, Value) -> bool,
                     ghost bs: set<Binding>, ghost vms: set<Viewmodel>, runloop: Runloop)
      requires this in bs && Ready(bs, vms) && !updating
      modifies bs`value, bs`updating, vms`data, vms`writes, runloop`instances
      decreases Idle(bs), 1
      ensures Steady(old(Snap(bs, vms, runloop)), Snap(bs, vms, runloop))
      ensures Propagation(v, this, otherKeypath, old(Echo()), old(QuietTarget()),
                          old(otherInstance.viewmodel.Watchers(otherKeypath)),
                          old(Snap(bs, vms, runloop)), Snap(bs, vms, runloop))
    {
      ghost var s0 := Snap(bs, vms, runloop);
      ghost var echo, quiet := Echo(), QuietTarget();
      ghost var watchers := otherInstance.viewmodel.Watchers(otherKeypath);
      Raise(bs, vms, runloop);
      FewerIdle(bs, s0.flags, this);
      Finish(v, isEqual, bs, vms, runloop, s0, echo, quiet, watchers);
    }

    /**
     * createComponentBinding.js:38-47.
     * What setValue does once the flag is raised: forward unless the
     * counterpart is updating, then record the value and lower the flag.
     * `s0`, `echo`, `quiet` and `watchers` describe the state setValue
     * started from.
     */
    method Finish(v: Value, isEqual: (Value, Value) -> bool,
                  ghost bs: set<Binding>, ghost vms: set<Viewmodel>, runloop: Runloop,
                  ghost s0: Snapshot, ghost echo: bool, ghost quiet: bool, ghost watchers: set<Binding>)
      requires this in bs && Ready(bs, vms) && updating && this !in s0.flags && this in s0.values
      requires Snap(bs, vms, runloop) == s0.(flags := s0.flags + {this})
      requires echo == Echo() && quiet == QuietTarget() && watchers == otherInstance.viewmodel.Watchers(otherKeypath)
      modifies bs`value, bs`updating, vms`data, vms`writes, runloop`instances
      decreases Idle(bs), 7
      ensures Steady(s0, Snap(bs, vms, runloop))
      ensures Propagation(v, this, otherKeypath, echo, quiet, watchers, s0, Snap(bs, vms, runloop))
    {
      if !(counterpart != null && counterpart.updating) {
        Forward(v, isEqual, bs, vms, runloop, s0.(flags := s0.flags + {this}), quiet, watchers);
      }
      ghost var s1 := Snap(bs, vms, runloop);
      Lower(v, bs, vms, runloop);
      PropagationHolds(v, this, otherKeypath, echo, quiet, watchers, s0, s1, Snap(bs, vms, runloop));
    }

    /**
     * createComponentBinding.js:39-40.
     * `runloop.addInstance(otherInstance)`, then
     * `otherInstance.viewmodel.set(otherKeypath, value)`, from the state
     * `s0`, with `quiet` and `watchers` as they stand there.
     */
    method Forward(v: Value, isEqual: (Value, Value) -> bool,
                   ghost bs: set<Binding>, ghost vms: set<Viewmodel>, runloop: Runloop,
                   ghost s0: Snapshot, ghost quiet: bool, ghost watchers: set<Binding>)
      requires this in bs && Ready(bs, vms) && updating && Snap(bs, vms, runloop) == s0
      requires quiet == QuietTarget() && watchers == otherInstance.viewmodel.Watchers(otherKeypath)
      modifies bs`value, bs`updating, vms`data, vms`writes, runloop`instances
      decreases Idle(bs), 6
      ensures Steady(s0, Snap(bs, vms, runloop))
      ensures Scheduled(v, otherInstance, otherKeypath, s0, Snap(bs, vms, runloop))
      ensures quiet ==>
                otherInstance.viewmodel in s0.stores &&
                Echoed(s0.(stores := Written(s0.stores, otherInstance.viewmodel, otherKeypath, v),
                           sched := s0.sched + [otherInstance]),
                       Snap(bs, vms, runloop), watchers, v)
    {
      assert quiet ==> Quiet(bs, otherInstance.viewmodel, otherKeypath, s0.flags);
      runloop.AddInstance(otherInstance);
      assert Snap(bs, vms, runloop) == s0.(sched := s0.sched + [otherInstance]);
      assert otherInstance.viewmodel.Watchers(otherKeypath) == watchers;
      otherInstance.viewmodel.Set(otherKeypath, v, isEqual, bs, vms, runloop);
      ForwardHolds(v, otherInstance, otherKeypath, s0, Snap(bs, vms, runloop));
    }

    /** createComponentBinding.js:90-91: `this.counterpart = other; other.counterpart = this` */
    method Pair(other: Binding)
      modifies this`counterpart, other`counterpart
      ensures counterpart == other && other.counterpart == this
    {
      counterpart := other;
      other.counterpart := this;
    }

    /** createComponentBinding.js:32: `this.updating = true` */
    method Raise(ghost bs: set<Binding>, ghost vms: set<Viewmodel>, runloop: Runloop)
      requires this in bs && !updating && counterpart != this
      modifies this`updating
      ensures updating
      ensures Echo() == old(Echo()) && QuietTarget() == old(QuietTarget())
      ensures otherInstance.viewmodel.Watchers(otherKeypath) == old(otherInstance.viewmodel.Watchers(otherKeypath))
      ensures Snap(bs, vms, runloop) == old(Snap(bs, vms, runloop)).(flags := old(Flags(bs)) + {this})
    {
      updating := true;
      assert Flags(bs) == old(Flags(bs)) + {this};
    }

    /** createComponentBinding.js:43-47: `this.value = value; this.updating = false` */
    method Lower(v: Value, ghost bs: set<Binding>, ghost vms: set<Viewmodel>, runloop: Runloop)
      requires this in bs
      modifies this`value, this`updating
      ensures value == v && !updating
      ensures var s0 := old(Snap(bs, vms, runloop));
              Snap(bs, vms, runloop) == s0.(values := s0.values[this := v], flags := s0.flags - {this})
    {
      value := v;
      updating := false;
    }

    /**
     * rebind: both halves are unregistered, this binding moves to
     * `newKeypath` and the counterpart writes to it, and both are registered
     * again. Without a counterpart only the first unregistration happens.
     */
    method Rebind(newKeypath: Keypath) returns (outcome: Outcome)
      modifies this`keypath, root.viewmodel`observers,
               (if counterpart == null then {} else {counterpart})`otherKeypath,
               (if counterpart == null then {} else {counterpart.root.viewmodel})`observers
      ensures counterpart == null ==>
                outcome == Fail(NoCounterpart) && keypath == old(keypath) &&
                root.viewmodel.observers == old(root.viewmodel.observers) - {this}
      ensures counterpart != null ==>
                outcome == Done && keypath == newKeypath && counterpart.otherKeypath == newKeypath &&
                this in root.viewmodel.Watchers(newKeypath)
      ensures counterpart != null ==>
                forall m <- {root.viewmodel, counterpart.root.viewmodel} ::
                  m.observers == old(m.observers) + (if m == root.viewmodel then {this} else {})
                                                  + (if m == counterpart.root.viewmodel then {counterpart} else {})
    {
      root.viewmodel.Unregister(this);
      if counterpart == null {
        return Fail(NoCounterpart);
      }
      var other := counterpart;
      other.root.viewmodel.Unregister(other);
      keypath := newKeypath;
      other.otherKeypath := newKeypath;
      root.viewmodel.Register(this);
      other.root.viewmodel.Register(other);
      outcome := Done;
    }

    /** teardown: only this binding is unregistered; its counterpart stays registered. */
    method Teardown()
      modifies root.viewmodel`observers
      ensures root.viewmodel.observers == old(root.viewmodel.observers) - {this}
    {
      root.viewmodel.Unregister(this);
    }
  }

  /** The key a component uses to remember a mapping. */
  function Hash(parentKeypath: Keypath, childKeypath: Keypath): (h: string)
    ensures |h| == |parentKeypath| + 1 + |childKeypath| && h[|parentKeypath|] == '='
    ensures h[..|parentKeypath|] == parentKeypath && h[|parentKeypath| + 1..] == childKeypath
  {
    parentKeypath + "=" + childKeypath
  }

  /** The position of the first '=' in `h`, or `|h|`. */
  function KeySplit(h: string): (i: nat)
    ensures i <= |h|
    ensures forall j :: 0 <= j < i ==> h[j] != '='
    ensures i < |h| ==> h[i] == '='
  {
    if h == [] || h[0] == '=' then 0 else 1 + KeySplit(h[1..])
  }

  lemma {:induction false} KeySplitAtParent(p: Keypath, c: Keypath)
    requires '=' !in p
    ensures KeySplit(Hash(p, c)) == |p|
  {
    if p != [] {
      assert Hash(p, c)[1..] == Hash(p[1..], c);
      KeySplitAtParent(p[1..], c);
    }
  }

  /** Two mappings share a key only if they are the same mapping, as long as parent keypaths hold no '='. */
  lemma HashInjective(p1: Keypath, c1: Keypath, p2: Keypath, c2: Keypath)
    requires '=' !in p1 && '=' !in p2
    requires Hash(p1, c1) == Hash(p2, c2)
    ensures p1 == p2 && c1 == c2
  {
    var h := Hash(p1, c1);
    KeySplitAtParent(p1, c1);
    KeySplitAtParent(p2, c2);
    assert p1 == h[..|p1|] == p2;
    assert c1 == h[|p1| + 1..] == c2;
  }

  /** A keypath with '=' in it lets two different mappings share a key. */
  lemma HashCollides()
    ensures Hash("a=b", "c") == Hash("a", "b=c")
  {
  }

  /** The component item of a child instance, holding its mappings. */
  class Component {
    const instance: Instance
    /** `parentFragment.priority` of the component's host fragment. */
    const priority: nat
    /** The array part of `component.bindings`. */
    var bindings: seq<Binding>
    /** The hash keys set on `component.bindings`. */
    var marked: set<string>

    constructor (instance: Instance, priority: nat)
      ensures this.instance == instance && this.priority == priority && bindings == [] && marked == {}
    {
      this.instance := instance;
      this.priority := priority;
      bindings := [];
      marked := {};
    }

    /** createComponentBinding.js:83-84: `new Binding(ractive, keypath, other, otherKeypath, priority)` pushed onto `component.bindings` */
    method Attach(ractive: Instance, keypath: Keypath, other: Instance, otherKeypath: Keypath, priority: nat)
      returns (b: Binding)
      modifies this`bindings, ractive.viewmodel`observers
      ensures fresh(b) && bindings == old(bindings) + [b]
      ensures b.Half(ractive, keypath, other, otherKeypath, priority) && b.counterpart == null
      ensures ractive.viewmodel.observers == old(ractive.viewmodel.observers) + {b}
    {
      b := new Binding(ractive, keypath, other, otherKeypath, priority);
      bindings := bindings + [b];
    }

    /** createComponentBinding.js:80-92, once the mapping is marked: the bindings are made, pushed and paired. */
    method Map(parentInstance: Instance, parentKeypath: Keypath, childKeypath: Keypath)
      modifies this`bindings, parentInstance.viewmodel`observers, instance.viewmodel`observers
      ensures BindingsAdded(this, parentInstance, parentKeypath, childKeypath)
      ensures instance.twoway && old(parentInstance.viewmodel.Watchers(parentKeypath)) == {} &&
              old(instance.viewmodel.Watchers(childKeypath)) == {} ==>
                var n := |old(bindings)|;
                bindings[n].QuietTarget() && bindings[n + 1].QuietTarget()
    {
      ghost var parentObservers := parentInstance.viewmodel.observers;
      ghost var childObservers := instance.viewmodel.observers;
      ghost var alone := parentInstance.viewmodel.Watchers(parentKeypath) == {} &&
                         instance.viewmodel.Watchers(childKeypath) == {};
      if alone {
        parentInstance.viewmodel.Unwatched(parentKeypath);
        instance.viewmodel.Unwatched(childKeypath);
      }
      var parentToChild := Attach(parentInstance, parentKeypath, instance, childKeypath, priority);
      if instance.twoway {
        var childToParent := Couple(parentToChild, instance, childKeypath, parentInstance, parentKeypath);
        assert bindings[|old(bindings)|..] == [parentToChild, childToParent];
        if alone {
          PairQuiet(parentToChild, childObservers);
          PairQuiet(childToParent, parentObservers);
        }
      }
    }

    /**
     * createComponentBinding.js:87-91.
     * The second half of a two-way mapping: `new Binding(ractive, keypath,
     * other, otherKeypath, 1)` pushed, and it and `down` made each other's
     * counterpart.
     */
    method Couple(down: Binding, ractive: Instance, keypath: Keypath, other: Instance, otherKeypath: Keypath)
      returns (up: Binding)
      modifies this`bindings, ractive.viewmodel`observers, down`counterpart
      ensures fresh(up) && bindings == old(bindings) + [up]
      ensures up.Half(ractive, keypath, other, otherKeypath, 1)
      ensures down.counterpart == up && up.counterpart == down
      ensures ractive.viewmodel.observers == old(ractive.viewmodel.observers) + {up}
    {
      up := Attach(ractive, keypath, other, otherKeypath, 1);
      down.Pair(up);
    }
  }

  /**
   * createComponentBinding: a mapping already marked is ignored. Otherwise
   * it is marked, and a parent-to-child binding at the host fragment's
   * priority is pushed; for a two-way child a child-to-parent binding at
   * priority 1 follows, and the two become each other's counterpart. Each
   * new binding is registered with its own viewmodel. When nothing else
   * watched either keypath, each half of a two-way pair only ever sees its
   * own writes come back through its counterpart.
   */
  method CreateComponentBinding(component: Component, parentInstance: Instance,
                                parentKeypath: Keypath, childKeypath: Keypath)
    modifies component`bindings, component`marked, parentInstance.viewmodel`observers,
             component.instance.viewmodel`observers
    ensures Hash(parentKeypath, childKeypath) in old(component.marked) ==>
              unchanged(component) && unchanged(parentInstance.viewmodel, component.instance.viewmodel)
    ensures Hash(parentKeypath, childKeypath) !in old(component.marked) ==>
              MappingAdded(component, parentInstance, parentKeypath, childKeypath)
    ensures Hash(parentKeypath, childKeypath) !in old(component.marked) && component.instance.twoway &&
            old(parentInstance.viewmodel.Watchers(parentKeypath)) == {} &&
            old(component.instance.viewmodel.Watchers(childKeypath)) == {} ==>
              var n := |old(component.bindings)|;
              component.bindings[n].QuietTarget() && component.bindings[n + 1].QuietTarget()
  {
    var hash := Hash(parentKeypath, childKeypath);
    if hash in component.marked {
      return;
    }
    component.marked := component.marked + {hash};
    component.Map(parentInstance, parentKeypath, childKeypath);
  }

  /**
   * A binding whose write target holds, besides itself and its counterpart,
   * only bindings watching other keypaths has nobody else to wake there.
   */
  lemma PairQuiet(b: Binding, others: set<Binding>)
    requires b.counterpart != null && b.counterpart.counterpart == b
    requires forall x <- others :: x.keypath != b.otherKeypath
    requires b.otherInstance.viewmodel.observers <= others + {b, b.counterpart}
    ensures b.QuietTarget()
  {
  }

  /**
   * What createComponentBinding adds for a new mapping: the hash is marked,
   * one or two fresh bindings are pushed after the old ones, wired as
   * described there, each registered with its own viewmodel and holding
   * that viewmodel's current value at its keypath.
   */
  twostate predicate MappingAdded(component: Component, parentInstance: Instance,
                                  parentKeypath: Keypath, childKeypath: Keypath)
    reads component, component.bindings, parentInstance.viewmodel, component.instance.viewmodel
  {
    component.marked == old(component.marked) + {Hash(parentKeypath, childKeypath)} &&
    BindingsAdded(component, parentInstance, parentKeypath, childKeypath)
  }

  /** The bindings part of MappingAdded. */
  twostate predicate BindingsAdded(component: Component, parentInstance: Instance,
                                   parentKeypath: Keypath, childKeypath: Keypath)
    reads component, component.bindings, parentInstance.viewmodel, component.instance.viewmodel
  {
    var n := |old(component.bindings)|;
    var child := component.instance;
    |component.bindings| == n + (if child.twoway then 2 else 1) &&
    component.bindings[..n] == old(component.bindings) &&
    var down := component.bindings[n];
    fresh(down) && down.Half(parentInstance, parentKeypath, child, childKeypath, component.priority) &&
    (!child.twoway ==> down.counterpart == null) &&
    (child.twoway ==>
       var up := component.bindings[n + 1];
       fresh(up) && up.Half(child, childKeypath, parentInstance, parentKeypath, 1) &&
       down.counterpart == up && up.counterpart == down) &&
    forall m <- {parentInstance.viewmodel, child.viewmodel} ::
      m.data == old(m.data) &&
      m.observers == old(m.observers) + set b | b in component.bindings[n..] && b.root.viewmodel == m
  }
}
