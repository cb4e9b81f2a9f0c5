/**
 * The fragment: a live instance of a template array (src/view/Fragment.js).
 *
 * A fragment owns an ordered list of items, one per template entry, and keeps
 * the flags that drive dirty tracking (`dirty`, `dirtyValue`), the lifecycle
 * (`bound`, `rendered`) and the re-entrancy guard of its update pass
 * (`updating`). Everything it talks to is a collaborator whose calls are
 * recorded in a `Trace`: its items, its owner, the component that embeds its
 * instance, and the batching scheduler (`runloop`). Items are abstract: an
 * item's template says how it reacts when it is bound or updated (it may
 * bubble dirtiness back into its fragment, and may re-enter the fragment's
 * update), which is what the fragment's guards exist for.
 */
module Fragments {

  datatype Option<T> = None | Some(value: T)

  /** A data-model binding context, and the viewmodel of an instance. */
  datatype Context = Context(id: nat)

  /** A Ractive instance as a fragment sees it. */
  datatype Instance = Instance(guid: nat, viewmodel: Context, component: Option<Component>)

  /** The component item that embeds an instance inside a host fragment. */
  datatype Component = Component(id: nat, parentFragment: Fragment)

  /**
   * The item that owns a fragment (an element, section, partial or
   * attribute), or a Ractive instance owning its root fragment.
   * `parentResolves` says whether that parent fragment has a `resolve`
   * method: a repeated fragment (the list of a section's iterations) is a
   * parent that has none.
   */
  datatype Owner = Owner(id: nat, parentFragment: Fragment?, parentResolves: bool, instance: Option<Instance>)

  /** How an item reacts, synchronously, to being bound or updated. */
  datatype Reaction =
    | Quiet     // nothing comes back to the fragment
    | Bubbles   // the item bubbles dirtiness into its fragment
    | Reenters  // the item bubbles and then calls its fragment's update again

  /** What a fragment may produce as its value. */
  datatype Value = Text(s: string) | Data(token: nat)

  /** The template entry an item is created from. */
  datatype ItemTemplate = ItemTemplate(
    bubblesOnBind: bool,   // binding forces a resolution that dirties the fragment
    onUpdate: Reaction,
    text: string,          // toString()
    escapedText: string,   // toEscapedString()
    value: Value)          // valueOf()

  /** A DOM location to render into; abstract. */
  datatype Target = Target(id: nat)

  /** A template-level reference expression and the callback of its resolver. */
  datatype Reference = Reference(text: string, callback: nat)

  /** The lifecycle calls a fragment makes on its items. */
  datatype Op =
    | BindOp(context: Option<Context>)
    | UpdateOp
    | RenderOp(target: Target)
    | UnbindOp
    | UnrenderOp(destroy: bool)
    | ShuffledOp
    | DestroyedOp

  /** A call made on a collaborator of a fragment. */
  datatype Call =
    | ItemCall(item: Item, op: Op)
    | OwnerBubble(owner: Owner)
    | ComponentBubble(component: Component)
    | AddFragment(fragment: Fragment)        // runloop.addFragment
    | AddFragmentToRoot(fragment: Fragment)  // runloop.addFragmentToRoot

  /** Constructor options; `cssIds` is `Some` when the key is present, even with a null value. */
  datatype Options = Options(
    owner: Owner,
    ractive: Option<Instance>,
    template: Option<seq<ItemTemplate>>,
    cssIds: Option<Option<seq<string>>>)

  datatype Error =
    | AlreadyRendered   // render on a rendered fragment
    | NullParent        // resolve reached a root without context: `this.parent.resolve` on null

  datatype Outcome = Done | Fail(error: Error)

  datatype Result<T> = Success(value: T) | Failure(error: Error)

  /** The log of calls made on collaborators, shared by the fragments of a tree. */
  class Trace {
    var calls: seq<Call>

    constructor ()
      ensures calls == []
    {
      calls := [];
    }
  }

  /** A resolver created for an unresolved reference; its resolution logic is not modelled. */
  class Resolver {
    const fragment: Fragment
    const reference: Reference

    constructor (fragment: Fragment, reference: Reference)
      ensures this.fragment == fragment && this.reference == reference
    {
      this.fragment := fragment;
      this.reference := reference;
    }
  }

  /** The instance a fragment belongs to: given, the owner itself at a root, or the parent's. */
  function OwnerInstance(options: Options): Instance
    requires options.ractive.Some? || options.owner.parentFragment != null || options.owner.instance.Some?
  {
    if options.ractive.Some? then options.ractive.value
    else if options.owner.parentFragment == null then options.owner.instance.value
    else options.owner.parentFragment.ractive
  }

  /** `ForEach(its, op)`: `op` called on every item of `its`, in order. */
  ghost function ForEach(its: seq<Item>, op: Op): seq<Call> {
    if its == [] then [] else ForEach(its[..|its| - 1], op) + [ItemCall(its[|its| - 1], op)]
  }

  lemma {:induction false} ForEachAt(its: seq<Item>, op: Op)
    ensures |ForEach(its, op)| == |its|
    ensures forall i :: 0 <= i < |its| ==> ForEach(its, op)[i] == ItemCall(its[i], op)
  {
    if its != [] {
      ForEachAt(its[..|its| - 1], op);
    }
  }

  /** The reaction of an item to a lifecycle call. */
  ghost function ReactionTo(it: Item, op: Op): Reaction {
    match op
    case BindOp(_) => if it.template.bubblesOnBind then Bubbles else Quiet
    case UpdateOp => it.template.onUpdate
    case _ => Quiet
  }

  /** Some item of `its` reacts to `op` by dirtying its fragment. */
  ghost predicate Reacts(its: seq<Item>, op: Op) {
    its != [] && (Reacts(its[..|its| - 1], op) || ReactionTo(its[|its| - 1], op) != Quiet)
  }

  /** The items that received `op`, in the order of the calls. */
  ghost function Receivers(calls: seq<Call>, op: Op): seq<Item> {
    if calls == [] then []
    else (if calls[0].ItemCall? && calls[0].op == op then [calls[0].item] else []) + Receivers(calls[1..], op)
  }

  /** How many calls forward dirtiness upward (owner, component or scheduler). */
  ghost function Propagations(calls: seq<Call>): nat {
    if calls == [] then 0
    else (if calls[0].OwnerBubble? || calls[0].ComponentBubble? || calls[0].AddFragment? then 1 else 0)
         + Propagations(calls[1..])
  }

  lemma AppendAssoc<T>(a: seq<T>, b: seq<T>, c: seq<T>)
    ensures (a + b) + c == a + (b + c)
  {
  }

  lemma {:induction false} NoItemCalls(calls: seq<Call>, op: Op)
    requires forall i :: 0 <= i < |calls| ==> !calls[i].ItemCall?
    ensures Receivers(calls, op) == []
  {
    if calls != [] {
      NoItemCalls(calls[1..], op);
    }
  }

  lemma {:induction false} ReceiversAppend(a: seq<Call>, b: seq<Call>, op: Op)
    ensures Receivers(a + b, op) == Receivers(a, op) + Receivers(b, op)
  {
    if a == [] {
      assert a + b == b;
    } else {
      assert (a + b)[0] == a[0] && (a + b)[1..] == a[1..] + b;
      ReceiversAppend(a[1..], b, op);
    }
  }

  lemma {:induction false} PropagationsAppend(a: seq<Call>, b: seq<Call>)
    ensures Propagations(a + b) == Propagations(a) + Propagations(b)
  {
    if a == [] {
      assert a + b == b;
    } else {
      assert (a + b)[0] == a[0] && (a + b)[1..] == a[1..] + b;
      PropagationsAppend(a[1..], b);
    }
  }

  class Item {
    const parentFragment: Fragment
    const template: ItemTemplate
    const index: nat

    /** `createItem({ parentFragment, template, index })`. */
    constructor (parentFragment: Fragment, template: ItemTemplate, index: nat)
      ensures this.parentFragment == parentFragment && this.template == template && this.index == index
    {
      this.parentFragment := parentFragment;
      this.template := template;
      this.index := index;
    }

    function Text(escape: bool): string {
      if escape then template.escapedText else template.text
    }

    /** A lifecycle call the item handles without calling back into its fragment. */
    method Notify(op: Op)
      modifies parentFragment.log
      ensures parentFragment.log.calls == old(parentFragment.log.calls) + [ItemCall(this, op)]
    {
      parentFragment.log.calls := parentFragment.log.calls + [ItemCall(this, op)];
    }

    /** bind: may force a resolution that bubbles into the (not yet bound) fragment. */
    method Bind(context: Option<Context>)
      modifies parentFragment`dirty, parentFragment`dirtyValue, parentFragment.log
      ensures parentFragment.log.calls ==
                old(parentFragment.log.calls) + [ItemCall(this, BindOp(context))] +
                parentFragment.Reaction(ReactionTo(this, BindOp(context)), old(parentFragment.dirty), parentFragment.bound)
      ensures parentFragment.dirty == (old(parentFragment.dirty) || template.bubblesOnBind)
      ensures parentFragment.dirtyValue == (old(parentFragment.dirtyValue) || template.bubblesOnBind)
    {
      var f := parentFragment;
      f.log.calls := f.log.calls + [ItemCall(this, BindOp(context))];
      if template.bubblesOnBind {
        f.Bubble();
      }
    }

    /**
     * update, as called from its fragment's update pass: may bubble into the
     * fragment and may call the fragment's update again.
     */
    method Update()
      requires parentFragment.updating && parentFragment.Valid()
      modifies parentFragment`dirty, parentFragment`dirtyValue, parentFragment`updating, parentFragment.log
      decreases 0, 1
      ensures parentFragment.updating
      ensures parentFragment.log.calls ==
                old(parentFragment.log.calls) + [ItemCall(this, UpdateOp)] +
                parentFragment.Reaction(template.onUpdate, old(parentFragment.dirty), parentFragment.bound)
      ensures parentFragment.dirty == (old(parentFragment.dirty) || template.onUpdate != Quiet)
      ensures parentFragment.dirtyValue == (old(parentFragment.dirtyValue) || template.onUpdate != Quiet)
    {
      var f := parentFragment;
      f.log.calls := f.log.calls + [ItemCall(this, UpdateOp)];
      match template.onUpdate
      case Quiet =>
      case Bubbles =>
        f.Bubble();
      case Reenters =>
        f.Bubble();
        f.Update();
    }
  }

  class Fragment {
    const owner: Owner
    const isRoot: bool
    const parent: Fragment?
    const ractive: Instance
    const componentParent: Fragment?
    const log: Trace
    /** Distance to the top of the tree, through component boundaries. */
    ghost const depth: nat

    var context: Option<Context>
    var rendered: bool
    var bound: bool
    var cssIds: Option<seq<string>>
    var resolvers: seq<Resolver>
    var dirty: bool
    var dirtyValue: bool
    var updating: bool
    var isIteration: bool
    var template: seq<ItemTemplate>
    var items: seq<Item>
    var value: Value

    /** The enclosing fragment, across a component boundary at a component's root. */
    function Up(): Fragment? {
      if parent != null then parent else componentParent
    }

    /** The chain of enclosing fragments is finite. */
    ghost predicate ChainOk()
      decreases depth
    {
      var up := Up();
      up != null ==> up.depth < depth && up.ChainOk()
    }

    /** This fragment and its structural parents, innermost first. */
    ghost function Ancestry(): seq<Fragment>
      requires ChainOk()
      decreases depth
    {
      [this] + if parent == null then [] else parent.Ancestry()
    }

    /** Every fragment of the parent chain sits no deeper than this one. */
    lemma AncestryBelow()
      requires ChainOk()
      decreases depth
      ensures forall g <- Ancestry() :: g.depth <= depth
    {
      if parent != null {
        parent.AncestryBelow();
      }
    }

    /** The chain starts here and goes on with the parent's. */
    lemma AncestryStep()
      requires ChainOk()
      ensures |Ancestry()| >= 1 && Ancestry()[0] == this
      ensures parent != null ==> parent.ChainOk() && Ancestry()[1..] == parent.Ancestry()
      ensures parent == null ==> |Ancestry()| == 1
    {
    }

    lemma AncestryAllocated()
      requires ChainOk()
      decreases depth
      ensures forall g <- Ancestry() :: allocated(g)
    {
      if parent != null {
        parent.AncestryAllocated();
      }
    }

    ghost function Lineage(): set<Fragment>
      requires ChainOk()
    {
      set f | f in Ancestry()
    }

    /** This fragment and every enclosing fragment up to the top, innermost first. */
    ghost function UpChain(): seq<Fragment>
      requires ChainOk()
      decreases depth
    {
      [this] + if Up() == null then [] else Up().UpChain()
    }

    /** The chain up starts here and goes on with the enclosing fragment's. */
    lemma UpChainStep()
      requires ChainOk()
      ensures |UpChain()| >= 1 && UpChain()[0] == this
      ensures Up() != null ==> Up().ChainOk() && UpChain()[1..] == Up().UpChain()
      ensures Up() == null ==> |UpChain()| == 1
    {
    }

    /** Every item is this fragment's and sits at its own template index. */
    ghost predicate Valid()
      reads this`items, this`template
    {
      |items| == |template| &&
      forall i :: 0 <= i < |items| ==>
        items[i].parentFragment == this && items[i].index == i && items[i].template == template[i]
    }

    constructor (options: Options, log: Trace)
      requires options.ractive.Some? || options.owner.parentFragment != null || options.owner.instance.Some?
      requires options.owner.parentFragment != null ==> options.owner.parentFragment.ChainOk()
      requires options.owner.parentFragment == null && OwnerInstance(options).component.Some? ==>
                 OwnerInstance(options).component.value.parentFragment.ChainOk()
      ensures isRoot == (options.owner.parentFragment == null)
      ensures parent == options.owner.parentFragment
      ensures ractive == OwnerInstance(options)
      ensures componentParent ==
                if isRoot && ractive.component.Some? then ractive.component.value.parentFragment else null
      ensures cssIds ==
                if options.cssIds.Some? then options.cssIds.value
                else if parent != null then parent.cssIds else None
      ensures context == None && !rendered && !bound && !updating && !isIteration
      ensures !dirty && dirtyValue && resolvers == []
      ensures this.template == (if options.template.Some? then options.template.value else [])
      ensures this.owner == options.owner && this.log == log
      ensures Valid() && ChainOk()
      ensures forall i :: 0 <= i < |items| ==> fresh(items[i])
    {
      owner := options.owner;
      isRoot := options.owner.parentFragment == null;
      parent := options.owner.parentFragment;
      var instance := OwnerInstance(options);
      ractive := instance;
      var up := if options.owner.parentFragment == null && instance.component.Some?
                then instance.component.value.parentFragment else null;
      componentParent := up;
      this.log := log;
      depth := if options.owner.parentFragment != null then options.owner.parentFragment.depth + 1
               else if up != null then up.depth + 1 else 0;
      context := None;
      rendered := false;
      bound := false;
      cssIds := if options.cssIds.Some? then options.cssIds.value
                else if options.owner.parentFragment != null then options.owner.parentFragment.cssIds else None;
      resolvers := [];
      dirty := false;
      dirtyValue := true;
      updating := false;
      isIteration := false;
      template := if options.template.Some? then options.template.value else [];
      items := [];
      value := Text([]);
      new;
      CreateItems();
    }

    /** createItems: one fresh item per template entry, told its index and this fragment. */
    method CreateItems()
      modifies this`items
      ensures Valid()
      ensures forall i :: 0 <= i < |items| ==> fresh(items[i])
    {
      var max := |template|;
      items := [];
      for i := 0 to max
        invariant |items| == i
        invariant forall j :: 0 <= j < i ==>
                    items[j].parentFragment == this && items[j].index == j && items[j].template == template[j]
        invariant forall j :: 0 <= j < i ==> fresh(items[j])
      {
        var item := new Item(this, template[i], i);
        items := items + [item];
      }
    }

    /** Where a first bubble is forwarded: owner, embedding component, or the scheduler. */
    ghost function Propagation(bound: bool): seq<Call> {
      if !isRoot then [OwnerBubble(owner)]
      else if ractive.component.Some? then [ComponentBubble(ractive.component.value)]
      else if bound then [AddFragment(this)]
      else []
    }

    /** What update does when called while an update pass is running. */
    ghost function Deferral(): seq<Call> {
      if isRoot then [AddFragmentToRoot(this)] else []
    }

    /** The calls that follow an item's reaction, given whether the fragment was already dirty. */
    ghost function Reaction(r: Reaction, dirty: bool, bound: bool): seq<Call> {
      var bubble := if dirty then [] else Propagation(bound);
      match r
      case Quiet => []
      case Bubbles => bubble
      case Reenters => bubble + Deferral()
    }

    /**
     * The calls of a pass that sends `op` to each of `its` in order, each item
     * reacting in turn; `dirty` is whether the fragment was dirty before.
     */
    ghost function Pass(its: seq<Item>, op: Op, dirty: bool, bound: bool): seq<Call> {
      if its == [] then []
      else
        var init := its[..|its| - 1];
        var last := its[|its| - 1];
        Pass(init, op, dirty, bound) + [ItemCall(last, op)] +
        Reaction(ReactionTo(last, op), dirty || Reacts(init, op), bound)
    }

    /** The calls of update, from the flags it starts with. */
    ghost function UpdateCalls(dirty: bool, updating: bool, bound: bool): seq<Call>
      reads this`items
    {
      if !dirty then []
      else if updating then Deferral()
      else Pass(items, UpdateOp, false, bound)
    }

    lemma {:induction false} ReactionNotifiesNoItem(r: Reaction, dirty: bool, bound: bool, op: Op)
      ensures Receivers(Reaction(r, dirty, bound), op) == []
    {
      NoItemCalls(Reaction(r, dirty, bound), op);
    }

    /** The calls of a pass over `its[..i + 1]` extend those over `its[..i]` by item `i` and its reaction. */
    lemma PassStep(its: seq<Item>, i: nat, op: Op, dirty: bool, bound: bool)
      requires i < |its|
      ensures Pass(its[..i + 1], op, dirty, bound) ==
                Pass(its[..i], op, dirty, bound) + [ItemCall(its[i], op)] +
                Reaction(ReactionTo(its[i], op), dirty || Reacts(its[..i], op), bound)
      ensures Reacts(its[..i + 1], op) == (Reacts(its[..i], op) || ReactionTo(its[i], op) != Quiet)
    {
      assert its[..i + 1][..i] == its[..i];
    }

    /** The log after item `i` of a pass: the log before it, the call to item `i`, and its reaction. */
    lemma LogStep(pre: seq<Call>, its: seq<Item>, i: nat, op: Op, dirty: bool, bound: bool)
      requires i < |its|
      ensures pre + Pass(its[..i + 1], op, dirty, bound) ==
                pre + Pass(its[..i], op, dirty, bound) + [ItemCall(its[i], op)] +
                Reaction(ReactionTo(its[i], op), dirty || Reacts(its[..i], op), bound)
      ensures Reacts(its[..i + 1], op) == (Reacts(its[..i], op) || ReactionTo(its[i], op) != Quiet)
    {
      PassStep(its, i, op, dirty, bound);
      var r := Reaction(ReactionTo(its[i], op), dirty || Reacts(its[..i], op), bound);
      var a, c := Pass(its[..i], op, dirty, bound), [ItemCall(its[i], op)];
      AppendAssoc(pre, a + c, r);
      AppendAssoc(pre, a, c);
    }

    /** A pass reaches every item exactly once, in template order. */
    lemma {:induction false} PassReachesItemsInOrder(its: seq<Item>, op: Op, dirty: bool, bound: bool)
      ensures Receivers(Pass(its, op, dirty, bound), op) == its
    {
      if its != [] {
        var init := its[..|its| - 1];
        PassReachesItemsInOrder(init, op, dirty, bound);
        PassReceiversStep(its, op, dirty, bound);
        assert init + [its[|its| - 1]] == its;
      }
    }

    /** The last item of a pass is the last to receive `op`; its reaction reaches no item. */
    lemma PassReceiversStep(its: seq<Item>, op: Op, dirty: bool, bound: bool)
      requires its != []
      ensures Receivers(Pass(its, op, dirty, bound), op) ==
              Receivers(Pass(its[..|its| - 1], op, dirty, bound), op) + [its[|its| - 1]]
    {
      var init, last := its[..|its| - 1], its[|its| - 1];
      var r := Reaction(ReactionTo(last, op), dirty || Reacts(init, op), bound);
      var p := Pass(init, op, dirty, bound);
      assert Pass(its, op, dirty, bound) == p + [ItemCall(last, op)] + r;
      ReceiversAppend(p, [ItemCall(last, op)], op);
      ReceiversAppend(p + [ItemCall(last, op)], r, op);
      ReactionNotifiesNoItem(ReactionTo(last, op), dirty || Reacts(init, op), bound, op);
      assert Receivers([ItemCall(last, op)], op) == [last];
    }

    lemma {:induction false} ReactionPropagations(r: Reaction, dirty: bool, bound: bool)
      ensures Propagations(Reaction(r, dirty, bound)) == if dirty || r == Quiet then 0 else |Propagation(bound)|
    {
      var bubble := if dirty then [] else Propagation(bound);
      assert Propagations(bubble) == |bubble|;
      assert Propagations(Deferral()) == 0;
      if r == Reenters {
        PropagationsAppend(bubble, Deferral());
      }
    }

    /**
     * Dirtiness goes upward at most once per dirty episode: a whole pass
     * forwards it at most once, and not at all if the fragment was already
     * dirty or no item reacted.
     */
    lemma {:induction false} PassBubblesAtMostOnce(its: seq<Item>, op: Op, dirty: bool, bound: bool)
      ensures Propagations(Pass(its, op, dirty, bound)) <= if !dirty && Reacts(its, op) then 1 else 0
    {
      if its != [] {
        var init, last := its[..|its| - 1], its[|its| - 1];
        var r := Reaction(ReactionTo(last, op), dirty || Reacts(init, op), bound);
        PassBubblesAtMostOnce(init, op, dirty, bound);
        PropagationsAppend(Pass(init, op, dirty, bound), [ItemCall(last, op)]);
        PropagationsAppend(Pass(init, op, dirty, bound) + [ItemCall(last, op)], r);
        ReactionPropagations(ReactionTo(last, op), dirty || Reacts(init, op), bound);
        assert Propagations([ItemCall(last, op)]) == 0;
        assert |Propagation(bound)| <= 1;
      }
    }

    /**
     * bubble: invalidates the cached value; the first bubble of a dirty
     * episode is forwarded to the owner (non-root), to the embedding
     * component (a component's root), or to the scheduler (a bound root);
     * an unbound root schedules nothing.
     */
    method Bubble()
      modifies this`dirty, this`dirtyValue, log
      ensures dirty && dirtyValue
      ensures log.calls == old(log.calls) + if old(dirty) then [] else Propagation(bound)
    {
      dirtyValue := true;
      if !dirty {
        dirty := true;
        if isRoot {
          if ractive.component.Some? {
            log.calls := log.calls + [ComponentBubble(ractive.component.value)];
          } else if bound {
            log.calls := log.calls + [AddFragment(this)];
          }
        } else {
          log.calls := log.calls + [OwnerBubble(owner)];
        }
      }
    }

    /**
     * update: nothing unless dirty; called during a running pass it leaves
     * `dirty` set and asks the scheduler to revisit the root; otherwise it
     * clears `dirty` and updates every item in template order, and the
     * fragment stays dirty exactly when some item dirtied it again.
     */
    method Update()
      requires Valid()
      modifies this`dirty, this`dirtyValue, this`updating, log
      decreases if updating then 0 else 1, 0
      ensures updating == old(updating)
      ensures log.calls == old(log.calls) + UpdateCalls(old(dirty), old(updating), bound)
      ensures dirty == (old(dirty) && (old(updating) || Reacts(items, UpdateOp)))
      ensures dirtyValue == (old(dirtyValue) || (old(dirty) && !old(updating) && Reacts(items, UpdateOp)))
    {
      if dirty {
        if !updating {
          dirty := false;
          updating := true;
          UpdateItems();
          updating := false;
        } else if isRoot {
          log.calls := log.calls + [AddFragmentToRoot(this)];
        }
      }
    }

    /** Fragment.js:262, the pass of update proper: every item updated in template order, each reacting in turn. */
    method UpdateItems()
      requires Valid() && updating && !dirty
      modifies this`dirty, this`dirtyValue, this`updating, log
      decreases 0, 3
      ensures updating
      ensures log.calls == old(log.calls) + Pass(items, UpdateOp, false, bound)
      ensures dirty == Reacts(items, UpdateOp)
      ensures dirtyValue == (old(dirtyValue) || Reacts(items, UpdateOp))
    {
      var i := 0;
      while i < |items|
        invariant 0 <= i <= |items|
        invariant updating
        invariant dirty == Reacts(items[..i], UpdateOp)
        invariant dirtyValue == (old(dirtyValue) || Reacts(items[..i], UpdateOp))
        invariant log.calls == old(log.calls) + Pass(items[..i], UpdateOp, false, bound)
      {
        LogStep(old(log.calls), items, i, UpdateOp, false, bound);
        UpdateAt(i);
        i := i + 1;
      }
      assert items[..i] == items;
    }

    /** One turn of the update pass at Fragment.js:262: `this.items[i].update()`. */
    method UpdateAt(i: nat)
      requires Valid() && updating && i < |items|
      modifies this`dirty, this`dirtyValue, this`updating, log
      decreases 0, 2
      ensures updating
      ensures log.calls == old(log.calls) + [ItemCall(items[i], UpdateOp)] +
                           Reaction(ReactionTo(items[i], UpdateOp), old(dirty), bound)
      ensures dirty == (old(dirty) || ReactionTo(items[i], UpdateOp) != Quiet)
      ensures dirtyValue == (old(dirtyValue) || ReactionTo(items[i], UpdateOp) != Quiet)
    {
      var item := items[i];
      assert item.parentFragment == this;
      item.Update();
    }

    /**
     * bind: stores the context, binds every item in order and marks the
     * fragment bound; if binding dirtied it, an update pass runs at once.
     */
    method Bind(context: Option<Context>)
      requires Valid()
      modifies this`context, this`bound, this`dirty, this`dirtyValue, this`updating, log
      ensures this.context == context && bound && updating == old(updating)
      ensures log.calls ==
                old(log.calls) + Pass(items, BindOp(context), old(dirty), old(bound)) +
                UpdateCalls(old(dirty) || Reacts(items, BindOp(context)), old(updating), true)
      ensures dirty == ((old(dirty) || Reacts(items, BindOp(context))) && (old(updating) || Reacts(items, UpdateOp)))
      ensures dirtyValue ==
                (old(dirtyValue) || Reacts(items, BindOp(context)) ||
                 ((old(dirty) || Reacts(items, BindOp(context))) && !old(updating) && Reacts(items, UpdateOp)))
    {
      this.context := context;
      BindItems(context);
      bound := true;
      if dirty {
        Update();
      }
    }

    /** Fragment.js:42, the pass of bind proper: every item bound in template order, each reacting in turn. */
    method BindItems(context: Option<Context>)
      requires Valid()
      modifies this`dirty, this`dirtyValue, log
      ensures dirty == (old(dirty) || Reacts(items, BindOp(context)))
      ensures dirtyValue == (old(dirtyValue) || Reacts(items, BindOp(context)))
      ensures log.calls == old(log.calls) + Pass(items, BindOp(context), old(dirty), bound)
    {
      var i := 0;
      while i < |items|
        invariant 0 <= i <= |items|
        invariant dirty == (old(dirty) || Reacts(items[..i], BindOp(context)))
        invariant dirtyValue == (old(dirtyValue) || Reacts(items[..i], BindOp(context)))
        invariant log.calls == old(log.calls) + Pass(items[..i], BindOp(context), old(dirty), bound)
      {
        LogStep(old(log.calls), items, i, BindOp(context), old(dirty), bound);
        var item := items[i];
        assert item.parentFragment == this;
        item.Bind(context);
        i := i + 1;
      }
      assert items[..i] == items;
    }

    /** Sends `op` to every item, in template order. */
    method Broadcast(op: Op)
      requires Valid()
      modifies log
      ensures log.calls == old(log.calls) + ForEach(items, op)
    {
      for i := 0 to |items|
        invariant log.calls == old(log.calls) + ForEach(items[..i], op)
      {
        assert items[..i + 1][..i] == items[..i];
        var item := items[i];
        assert item.parentFragment == this;
        item.Notify(op);
      }
      assert items[..|items|] == items;
    }

    /** unbind: unbinds every item and clears `bound`. */
    method Unbind()
      requires Valid()
      modifies this`bound, log
      ensures !bound
      ensures log.calls == old(log.calls) + ForEach(items, UnbindOp)
    {
      Broadcast(UnbindOp);
      bound := false;
    }

    /** render: refused on a rendered fragment; otherwise marks it rendered and renders every item. */
    method Render(target: Target) returns (r: Outcome)
      requires Valid()
      modifies this`rendered, log
      ensures rendered
      ensures old(rendered) ==> r == Fail(AlreadyRendered) && log.calls == old(log.calls)
      ensures !old(rendered) ==> r == Done && log.calls == old(log.calls) + ForEach(items, RenderOp(target))
    {
      if rendered {
        return Fail(AlreadyRendered);
      }
      rendered := true;
      Broadcast(RenderOp(target));
      r := Done;
    }

    /** unrender: unrenders (and optionally destroys) every item and clears `rendered`. */
    method Unrender(shouldDestroy: bool)
      requires Valid()
      modifies this`rendered, log
      ensures !rendered
      ensures log.calls == old(log.calls) + ForEach(items, UnrenderOp(shouldDestroy))
    {
      Broadcast(UnrenderOp(shouldDestroy));
      rendered := false;
    }

    method Shuffled()
      requires Valid()
      modifies log
      ensures log.calls == old(log.calls) + ForEach(items, ShuffledOp)
    {
      Broadcast(ShuffledOp);
    }

    method Destroyed()
      requires Valid()
      modifies log
      ensures log.calls == old(log.calls) + ForEach(items, DestroyedOp)
    {
      Broadcast(DestroyedOp);
    }

    /** rebinding: the fragment's context moves to `next`. */
    method Rebinding(next: Option<Context>)
      modifies this`context
      ensures context == next
    {
      context := next;
    }

    /**
     * resetTemplate: a bound fragment is unrendered (destroying its items)
     * if rendered, and unbound; the items are rebuilt from the new template;
     * a fragment that was bound is bound again to its context and, if it was
     * rendered, rendered again.
     */
    method ResetTemplate(newTemplate: seq<ItemTemplate>, target: Target)
      requires Valid()
      modifies this`template, this`items, this`context, this`bound, this`rendered, this`dirty,
               this`dirtyValue, this`updating, log
      ensures Valid() && template == newTemplate
      ensures forall i :: 0 <= i < |items| ==> fresh(items[i])
      ensures context == old(context) && bound == old(bound) && rendered == old(rendered)
      ensures updating == old(updating)
      ensures !old(bound) ==> log.calls == old(log.calls) && dirty == old(dirty) && dirtyValue == old(dirtyValue)
      ensures old(bound) ==>
                dirty == ((old(dirty) || Reacts(items, BindOp(old(context)))) && (old(updating) || Reacts(items, UpdateOp)))
      ensures old(bound) ==>
                dirtyValue ==
                  (old(dirtyValue) || Reacts(items, BindOp(old(context))) ||
                   ((old(dirty) || Reacts(items, BindOp(old(context)))) && !old(updating) && Reacts(items, UpdateOp)))
      ensures old(bound) ==>
                log.calls ==
                  old(log.calls) +
                  (if old(rendered) then ForEach(old(items), UnrenderOp(true)) else []) +
                  ForEach(old(items), UnbindOp) +
                  Pass(items, BindOp(old(context)), old(dirty), false) +
                  UpdateCalls(old(dirty) || Reacts(items, BindOp(old(context))), old(updating), true) +
                  (if old(rendered) then ForEach(items, RenderOp(target)) else [])
    {
      var wasBound := bound;
      var wasRendered := rendered;
      if wasBound {
        Release();
      }
      template := newTemplate;
      CreateItems();
      if wasBound {
        Restore(wasRendered, target);
      }
    }

    /** Fragment.js:200-203, the first half of resetTemplate on a bound fragment: unrender (destroying) if rendered, then unbind. */
    method Release()
      requires Valid()
      modifies this`rendered, this`bound, log
      ensures !bound && rendered == false
      ensures log.calls ==
                old(log.calls) + (if old(rendered) then ForEach(items, UnrenderOp(true)) else []) +
                ForEach(items, UnbindOp)
    {
      var wasRendered := rendered;
      ghost var unrendered := if wasRendered then ForEach(items, UnrenderOp(true)) else [];
      if wasRendered {
        Unrender(true);
      } else {
        assert log.calls + unrendered == log.calls;
      }
      Unbind();
    }

    /** Fragment.js:208-222, the second half of resetTemplate on a fragment that was bound: bind again, and render if it was rendered. */
    method Restore(wasRendered: bool, target: Target)
      requires Valid() && !rendered
      modifies this`context, this`bound, this`rendered, this`dirty, this`dirtyValue, this`updating, log
      ensures bound && rendered == wasRendered && context == old(context) && updating == old(updating)
      ensures log.calls ==
                old(log.calls) + Pass(items, BindOp(old(context)), old(dirty), old(bound)) +
                UpdateCalls(old(dirty) || Reacts(items, BindOp(old(context))), old(updating), true) +
                (if wasRendered then ForEach(items, RenderOp(target)) else [])
      ensures dirty == ((old(dirty) || Reacts(items, BindOp(old(context)))) && (old(updating) || Reacts(items, UpdateOp)))
      ensures dirtyValue ==
                (old(dirtyValue) || Reacts(items, BindOp(old(context))) ||
                 ((old(dirty) || Reacts(items, BindOp(old(context)))) && !old(updating) && Reacts(items, UpdateOp)))
    {
      Bind(context);
      if wasRendered {
        var outcome := Render(target);
      } else {
        assert log.calls + [] == log.calls;
      }
    }

    /**
     * findContext: the context of the nearest fragment on the parent chain
     * (this one first) that has one, or else the instance's viewmodel.
     */
    method FindContext() returns (c: Context)
      requires ChainOk()
      ensures var chain := Ancestry(); var k := Holder(chain);
              c == if k < |chain| then chain[k].context.value else ractive.viewmodel
    {
      ghost var chain := Ancestry();
      ghost var j := 0;
      var fragment: Fragment? := this;
      while fragment != null && fragment.context.None?
        invariant 0 <= j <= |chain|
        invariant fragment != null ==> j < |chain| && fragment == chain[j] && fragment.ChainOk() &&
                                       chain[j..] == fragment.Ancestry()
        invariant fragment == null ==> j == |chain|
        invariant forall i :: 0 <= i < j ==> chain[i].context.None?
        decreases |chain| - j
      {
        fragment.AncestryStep();
        assert chain[j + 1..] == chain[j..][1..];
        fragment := fragment.parent;
        j := j + 1;
      }
      HolderIsFirst(chain, j);
      if fragment == null {
        c := ractive.viewmodel;
      } else {
        c := fragment.context.value;
      }
    }

    /**
     * resolve: a fragment without a context hands the call to its parent
     * when that parent has a `resolve` method; the first fragment of the
     * parent chain that has a context, or whose parent has no `resolve`,
     * creates the resolver and records it. With no such fragment up to the
     * root, `this.parent.resolve` is read on null.
     */
    method Resolve(reference: Reference) returns (r: Result<Resolver>)
      requires ChainOk()
      modifies Lineage()`resolvers
      decreases depth
      ensures var chain := Ancestry(); var k := old(Keeper(chain));
              k == |chain| ==> r == Failure(NullParent)
      ensures var chain := Ancestry(); var k := old(Keeper(chain));
              k < |chain| ==> r.Success? && fresh(r.value) && r.value.fragment == chain[k] &&
                              r.value.reference == reference &&
                              chain[k].resolvers == old(chain[k].resolvers) + [r.value]
      ensures var chain := Ancestry(); var k := old(Keeper(chain));
              forall f <- chain :: (k < |chain| && f == chain[k]) || f.resolvers == old(f.resolvers)
    {
      AncestryAllocated();
      if context.None? {
        if parent == null {
          return Failure(NullParent);
        }
        if owner.parentResolves {
          ghost var chain := Ancestry();
          parent.AncestryBelow();
          assert chain[1..] == parent.Ancestry();
          assert Keeper(chain) == 1 + Keeper(parent.Ancestry());
          assert this !in parent.Ancestry();
          assert forall f <- chain :: f == this || f in parent.Ancestry();
          r := parent.Resolve(reference);
          return;
        }
      }
      var resolver := new Resolver(this, reference);
      resolvers := resolvers + [resolver];
      r := Success(resolver);
    }

    /**
     * findRepeatingFragment: the nearest fragment going up (through component
     * boundaries) that is a list iteration, or the topmost one.
     */
    method FindRepeatingFragment() returns (r: Fragment)
      requires ChainOk()
      ensures var chain := UpChain();
              exists k :: 0 <= k < |chain| && r == chain[k] &&
                          (r.isIteration || k == |chain| - 1) &&
                          forall j :: 0 <= j < k ==> !chain[j].isIteration
    {
      ghost var chain := UpChain();
      ghost var k := 0;
      r := this;
      while r.Up() != null && !r.isIteration
        invariant 0 <= k < |chain| && r == chain[k] && r.ChainOk() && chain[k..] == r.UpChain()
        invariant forall j :: 0 <= j < k ==> !chain[j].isIteration
        decreases |chain| - k
      {
        r.UpChainStep();
        assert chain[k + 1..] == chain[k..][1..];
        r := r.Up();
        k := k + 1;
      }
      r.UpChainStep();
    }

    /** toString: the items' strings (escaped or not), concatenated in order. */
    function ToString(escape: bool): (s: string)
      reads this`items
      ensures items == [] ==> s == []
      ensures forall i :: 0 <= i < |items| ==>
                s == ItemsText(items[..i], escape) + items[i].Text(escape) + ItemsText(items[i + 1..], escape)
    {
      ItemsTextInPlace(items, escape);
      ItemsText(items, escape)
    }

    /**
     * valueOf: a single item gives its own value; otherwise the cached value
     * while `dirtyValue` is clear, else the value is recomputed (the parsed
     * literal, or failing that the string form) and cached.
     */
    method ValueOf(interpret: (seq<Item>, nat) -> Option<Value>) returns (v: Value)
      modifies this`value, this`dirtyValue
      ensures |items| == 1 ==> v == items[0].template.value && value == old(value) && dirtyValue == old(dirtyValue)
      ensures |items| != 1 && !old(dirtyValue) ==> v == old(value) && value == old(value) && !dirtyValue
      ensures |items| != 1 && old(dirtyValue) ==>
                !dirtyValue && value == v &&
                v == match interpret(items, ractive.guid) case Some(p) => p case None => Text(ToString(false))
    {
      if |items| == 1 {
        return items[0].template.value;
      }
      if dirtyValue {
        var parsed := interpret(items, ractive.guid);
        value := match parsed case Some(p) => p case None => Text(ToString(false));
        dirtyValue := false;
      }
      v := value;
    }
  }

  /** The index of the first fragment of `chain` that has a context, or `|chain|`. */
  ghost function Holder(chain: seq<Fragment>): (k: nat)
    reads set f | f in chain
    ensures k <= |chain|
    ensures forall j :: 0 <= j < k ==> chain[j].context.None?
    ensures k < |chain| ==> chain[k].context.Some?
  {
    if chain == [] then 0
    else if chain[0].context.Some? then 0
    else 1 + Holder(chain[1..])
  }

  /** Where resolve stops: this fragment has a context, or its parent cannot resolve. */
  ghost predicate Keeps(f: Fragment)
    reads f`context
  {
    f.context.Some? || (f.parent != null && !f.owner.parentResolves)
  }

  /** The index of the first fragment of `chain` that keeps a resolver, or `|chain|`. */
  ghost function Keeper(chain: seq<Fragment>): (k: nat)
    reads set f | f in chain
    ensures k <= |chain|
    ensures forall j :: 0 <= j < k ==> !Keeps(chain[j])
    ensures k < |chain| ==> Keeps(chain[k])
  {
    if chain == [] then 0
    else if Keeps(chain[0]) then 0
    else 1 + Keeper(chain[1..])
  }

  /** The first fragment with a context is the one `Holder` names. */
  lemma HolderIsFirst(chain: seq<Fragment>, j: nat)
    requires j <= |chain|
    requires forall i :: 0 <= i < j ==> chain[i].context.None?
    requires j < |chain| ==> chain[j].context.Some?
    ensures Holder(chain) == j
  {
  }

  function ItemsText(its: seq<Item>, escape: bool): string {
    if its == [] then [] else its[0].Text(escape) + ItemsText(its[1..], escape)
  }

  lemma {:induction false} ItemsTextAppend(a: seq<Item>, b: seq<Item>, escape: bool)
    ensures ItemsText(a + b, escape) == ItemsText(a, escape) + ItemsText(b, escape)
  {
    if a == [] {
      assert a + b == b;
    } else {
      assert (a + b)[0] == a[0] && (a + b)[1..] == a[1..] + b;
      ItemsTextAppend(a[1..], b, escape);
    }
  }

  lemma ItemsTextInPlace(its: seq<Item>, escape: bool)
    ensures forall i :: 0 <= i < |its| ==>
              ItemsText(its, escape) == ItemsText(its[..i], escape) + its[i].Text(escape) + ItemsText(its[i + 1..], escape)
  {
    forall i | 0 <= i < |its|
      ensures ItemsText(its, escape) == ItemsText(its[..i], escape) + its[i].Text(escape) + ItemsText(its[i + 1..], escape)
    {
      ItemTextInPlace(its, escape, i);
    }
  }

  /** Each item's string stands in the fragment's string between those of the items before and after it. */
  lemma ItemTextInPlace(its: seq<Item>, escape: bool, i: nat)
    requires i < |its|
    ensures ItemsText(its, escape) ==
              ItemsText(its[..i], escape) + its[i].Text(escape) + ItemsText(its[i + 1..], escape)
  {
    assert its == its[..i] + ([its[i]] + its[i + 1..]);
    ItemsTextAppend(its[..i], [its[i]] + its[i + 1..], escape);
    assert ([its[i]] + its[i + 1..])[1..] == its[i + 1..];
  }
}
