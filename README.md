# Ractive fragments, component bindings and special attributes, in Dafny

This project models three pieces of the Ractive view layer and proves what they promise.

- **Fragments** (`fragment.dfy`, `src/view/Fragment.js`). A fragment is the live instance of a template array. It owns one item per template entry and keeps the flags `dirty`, `dirtyValue`, `bound`, `rendered` and `updating`. The model is a `Fragment` class with those fields. Items, the owner, the embedding component and the `runloop` scheduler are collaborators. Every call made on them is appended to a shared `Trace` log. An item is abstract: its template says whether it bubbles dirtiness back when bound, and whether it stays quiet, bubbles, or bubbles and re-enters the fragment's `update` when updated. That re-entry is the case the `updating` guard exists for.
- **Component bindings** (`component_binding.dfy`, `src/shared/createComponentBinding.js`). A `Binding` copies every new value of one keypath of its own instance to a keypath of another instance. A component mapping creates a parent-to-child binding and, for a two-way child, a child-to-parent binding; the two are each other's `counterpart`. The viewmodel is reduced to its data, a log of the writes it received, and its registered bindings. It tells the bindings that watch a keypath of a new value synchronously, inside the write, which is the worst case for the `updating` guards. The scheduler is the log of its `addInstance` calls. The properties of a write are stated on a `Snapshot` of the mutable state (every binding's last value and flag, every viewmodel's data and write log, the scheduler log). They say that every flag ends as it was and that logs only grow. When nobody else watches the target keypath, one `setValue` makes exactly one write into the other side and none back: a value goes A→B once and the pair does not ping-pong.
- **Special attributes** (`special_attrs.dfy`, `src/view/helpers/specialAttrs.js`). `ReadClass` splits a class string on runs of white space and then splices the empty entries out in a backwards loop, as the source does. `ReadStyle` is the pure split / filter / map / reduce pipeline that turns a style string into a map from property name to value.

Three behaviours of the source that are easy to misread, and that the model keeps:

- `findContext` (src/view/Fragment.js:110-115) walks only the structural `parent` chain and then falls back to the instance's viewmodel. It does not step across `componentParent`.
- `resetTemplate` (src/view/Fragment.js:200-203) unrenders only a fragment that is both bound and rendered. A rendered but unbound fragment is rebuilt without unrendering.
- `rebind` (src/shared/createComponentBinding.js:51-60) on a binding without a counterpart is not atomic. It unregisters the binding and then throws on `this.counterpart.root`. The model returns `Fail(NoCounterpart)` after that first unregistration.

## Model

| member | source | states |
|---|---|---|
| Fragments.Fragment.constructor | src/view/Fragment.js:16-38 | `isRoot` exactly when the owner has no `parentFragment`; `parent` is that fragment (null at a root); `ractive` is the given instance, else the owner at a root, else the parent's; `componentParent` is set only at a component's root; `cssIds` comes from the options when the key is present, else from the parent; the fragment starts unbound, unrendered, not updating, not dirty, with `dirtyValue` set and no resolvers; its items match its template |
| Fragments.Fragment.CreateItems | src/view/Fragment.js:71-78 | exactly one fresh item per template entry, item `i` created with index `i`, template entry `i` and this fragment as its parent |
| Fragments.Fragment.Bubble | src/view/Fragment.js:53-69 | `dirty` and `dirtyValue` always end set; a fragment already dirty calls nothing; otherwise exactly one call: `owner.bubble` for a non-root, `component.bubble` at a component's root, `runloop.addFragment` at a bound root, nothing at an unbound root |
| Fragments.Fragment.PassBubblesAtMostOnce | src/view/Fragment.js:53-69 | over a whole pass of item calls, dirtiness is forwarded upward at most once, and not at all when the fragment was already dirty or no item reacted |
| Fragments.Fragment.Update | src/view/Fragment.js:257-268 | a clean fragment does nothing; called during a running pass it keeps `dirty` set and only a root calls `runloop.addFragmentToRoot`; otherwise it clears `dirty`, updates every item in template order with each item's reaction in turn, restores `updating`, and ends dirty exactly when some item dirtied it again |
| Fragments.Fragment.UpdateItems | src/view/Fragment.js:262 | the update pass logs the item calls and reactions of `Pass(items, UpdateOp, …)`, keeps `updating` set, and leaves `dirty` exactly when some item reacted |
| Fragments.Fragment.UpdateAt | src/view/Fragment.js:262 | one step of the pass: the call to item `i`, then that item's reaction given whether the fragment was dirty |
| Fragments.Fragment.PassStep | src/view/Fragment.js:262 | the calls of a pass over `i + 1` items extend those over `i` items by item `i` and its reaction |
| Fragments.Fragment.LogStep | src/view/Fragment.js:262 | the same extension, behind any log prefix |
| Fragments.Fragment.PassReachesItemsInOrder | src/view/Fragment.js:262 | in a pass every item receives the call exactly once, in template order, whatever the items' reactions |
| Fragments.Fragment.PassReceiversStep | src/view/Fragment.js:262 | the last item of a pass is the last to receive the call, and its reaction reaches no item |
| Fragments.Fragment.ReactionNotifiesNoItem | src/view/Fragment.js:59-67 | a reaction (a bubble or a deferral) calls no item |
| Fragments.Fragment.ReactionPropagations | src/view/Fragment.js:56-67 | a reaction forwards dirtiness at most once; never when the fragment was already dirty or the item stayed quiet; otherwise once exactly when the fragment has somewhere to forward it (a non-root, a component's root, or a bound root) |
| Fragments.Fragment.Bind | src/view/Fragment.js:40-51 | `context` is stored; every item is bound in order, each reacting in turn; the fragment ends bound; an update pass runs exactly when binding left it dirty; it ends dirty exactly when binding dirtied it and the update pass did not clean it; `dirtyValue` ends set exactly when it was set, some item reacted to `bind`, or the update pass ran and some item reacted to it |
| Fragments.Fragment.BindItems | src/view/Fragment.js:42 | the bind pass: the items are bound in template order; the fragment ends dirty, and `dirtyValue` ends set, exactly when the flag was set or some item reacted |
| Fragments.Fragment.Broadcast | src/view/Fragment.js:238 | every item receives the call once, in template order, and nothing else is logged |
| Fragments.ForEachAt | src/view/Fragment.js:238 | the calls of `items.forEach` hold one entry per item, entry `i` being the call to item `i` |
| Fragments.Fragment.Unbind | src/view/Fragment.js:245-250 | every item is unbound in order and `bound` ends false |
| Fragments.Fragment.Render | src/view/Fragment.js:187-192 | an already rendered fragment fails with `AlreadyRendered` and calls nothing; otherwise it ends rendered and every item is rendered in order into the target |
| Fragments.Fragment.Unrender | src/view/Fragment.js:252-255 | every item is unrendered (destroyed when asked) in order and `rendered` ends false |
| Fragments.Fragment.Shuffled | src/view/Fragment.js:237-239 | every item is told `shuffled`, in order |
| Fragments.Fragment.Destroyed | src/view/Fragment.js:80-82 | every item is told `destroyed`, in order |
| Fragments.Fragment.Rebinding | src/view/Fragment.js:183-185 | the context moves to the new one |
| Fragments.Fragment.ResetTemplate | src/view/Fragment.js:194-224 | the items are rebuilt fresh from the new template; an unbound fragment calls nothing else; a bound one is unrendered with destruction (if rendered) and unbound, then bound again to its old context (with the update pass binding may cause) and rendered again if it was; context, `bound` and `rendered` end as they were; an unbound fragment keeps `dirty` and `dirtyValue`; a bound one ends with the `dirty` and `dirtyValue` of a `bind` of the new items |
| Fragments.Fragment.Release | src/view/Fragment.js:200-203 | the old items are unrendered with destruction if the fragment was rendered, then unbound |
| Fragments.Fragment.Restore | src/view/Fragment.js:208-222 | the new items are bound to the old context, then rendered if the fragment was rendered; `dirty` and `dirtyValue` end as `Bind` leaves them |
| Fragments.Fragment.FindContext | src/view/Fragment.js:110-115 | the context of the first fragment of the parent chain (this one first) that has one, or the instance's viewmodel when none has |
| Fragments.HolderIsFirst | src/view/Fragment.js:112 | the walk stops at the first fragment with a context |
| Fragments.Fragment.Resolve | src/view/Fragment.js:226-235 | a fragment without a context hands the call up only when its parent has a `resolve` method; a fresh resolver is pushed onto the first fragment of the parent chain that has a context or whose parent has no `resolve`, and no other fragment's resolvers change; when no fragment up to the root qualifies, `this.parent.resolve` is read on null and the call fails |
| Fragments.Fragment.FindRepeatingFragment | src/view/Fragment.js:165-173 | the first fragment going up (through component boundaries) that is an iteration, or the topmost one, with no iteration before it |
| Fragments.Fragment.ToString | src/view/Fragment.js:241-243 | the empty fragment gives the empty string; each item's string (escaped or not) stands between those of the items before it and those after it |
| Fragments.ItemsTextAppend | src/view/Fragment.js:241-243 | the string of a concatenation of item lists is the concatenation of their strings |
| Fragments.ItemTextInPlace | src/view/Fragment.js:241-243 | each item's string stands in the fragment's string between those of the items before and after it |
| Fragments.Fragment.ValueOf | src/view/Fragment.js:270-288 | one item gives its own value and leaves the cache alone; otherwise a clean cache is returned as is; a stale one is recomputed (the parsed literal, else the plain string) and stored, and `dirtyValue` is cleared |
| ComponentBindings.Binding.constructor | src/shared/createComponentBinding.js:5-16 | the binding keeps its instance, keypath, other instance, other keypath and priority, is registered with its own viewmodel (and nothing else is), has no counterpart, is idle, and holds the current value at its keypath |
| ComponentBindings.Binding.SetValue | src/shared/createComponentBinding.js:19-49 | while updating, for a smart array update, or for a value equal to the last synced one, nothing changes; otherwise see `Propagation`: the value is recorded, every flag ends as it was, and unless the counterpart is updating the other instance is scheduled once and the value is the first write to the other keypath; when nobody but the pair watches that keypath, it is the only write and nothing comes back |
| ComponentBindings.Binding.Propagate | src/shared/createComponentBinding.js:31-48 | the unguarded part of `setValue`: the flag is raised around the forwarding and lowered at the end, with the effect stated by `Propagation` |
| ComponentBindings.Binding.Finish | src/shared/createComponentBinding.js:38-47 | forward unless the counterpart is updating, then record the value and lower the flag |
| ComponentBindings.Binding.Forward | src/shared/createComponentBinding.js:39-40 | the other instance is appended to the scheduler log and the write to the other keypath is the first one its viewmodel records |
| ComponentBindings.Binding.Raise | src/shared/createComponentBinding.js:32 | only this binding's flag is raised; its counterpart test and its target's watchers are unchanged |
| ComponentBindings.Binding.Lower | src/shared/createComponentBinding.js:43-47 | the value is recorded and only this binding's flag is lowered |
| ComponentBindings.PropagationHolds | src/shared/createComponentBinding.js:31-48 | raising, forwarding (unless the counterpart is updating) and lowering compose into `Propagation` |
| ComponentBindings.ForwardHolds | src/shared/createComponentBinding.js:39-40 | scheduling followed by the viewmodel write makes up one forwarding |
| ComponentBindings.Viewmodel.Set | src/shared/createComponentBinding.js:40 | the store write a binding forwards into: the write is logged first; whatever the watchers do, every flag ends as it was and logs only grow; when no watcher is free to act, it is the only write and only the watchers' values move, to the written value |
| ComponentBindings.Viewmodel.Notify | src/shared/createComponentBinding.js:40 | each watcher of the keypath is told the value; when none is free to act only their values move |
| ComponentBindings.Viewmodel.Tell | src/shared/createComponentBinding.js:21-31 | a watcher that is updating, or whose counterpart is, either ignores the value or only records it |
| ComponentBindings.SetStep | src/shared/createComponentBinding.js:21-31 | one watcher told keeps the loop's invariant: flags unchanged, logs grown, and when quiet only watchers moved |
| ComponentBindings.WroteFirst | src/shared/createComponentBinding.js:40 | the write logged first stays first however the logs grow afterwards |
| ComponentBindings.Binding.Rebind | src/shared/createComponentBinding.js:51-60 | both halves are unregistered, this binding moves to the new keypath and the counterpart writes to it, and both end registered with their own viewmodel (each viewmodel otherwise unchanged); without a counterpart only this binding is unregistered and the call fails |
| ComponentBindings.Binding.Teardown | src/shared/createComponentBinding.js:62-64 | only this binding is unregistered; the counterpart stays registered |
| ComponentBindings.CreateComponentBinding | src/shared/createComponentBinding.js:67-93 | a mapping already marked changes nothing; otherwise `MappingAdded`: the hash is marked, a fresh parent-to-child binding at the host fragment's priority is pushed, for a two-way child a fresh child-to-parent binding at priority 1 follows and the two become each other's counterpart, each registered with its own viewmodel; when nothing else watched either keypath each half of the new pair has nobody but its counterpart to wake at its target |
| ComponentBindings.Component.Map | src/shared/createComponentBinding.js:80-92 | the binding part of a new mapping, as above |
| ComponentBindings.Component.Attach | src/shared/createComponentBinding.js:83-84 | one fresh binding built as the constructor leaves it and pushed after the old ones |
| ComponentBindings.Component.Couple | src/shared/createComponentBinding.js:87-91 | the child-to-parent half at priority 1, pushed and cross-linked with the first half |
| ComponentBindings.Binding.Pair | src/shared/createComponentBinding.js:90-91 | the two bindings become each other's counterpart |
| ComponentBindings.PairQuiet | src/shared/createComponentBinding.js:86-92 | a fresh pair whose keypaths nobody else watched starts quiet |
| ComponentBindings.Viewmodel.Unwatched | src/shared/createComponentBinding.js:86-91 | a keypath with no watchers is watched by no registered binding; this is what lets `Map` show that a new pair on keypaths nobody watched starts quiet (`PairQuiet`) |
| ComponentBindings.Hash | src/shared/createComponentBinding.js:70 | the key is the parent keypath, then `=`, then the child keypath |
| ComponentBindings.HashInjective | src/shared/createComponentBinding.js:70-73 | two mappings share a key only when they are the same mapping, as long as parent keypaths hold no `=` |
| ComponentBindings.HashCollides | src/shared/createComponentBinding.js:70-73 | with `=` inside a keypath, the mappings `a=b → c` and `a → b=c` share a key; by the first clause of `CreateComponentBinding`, the second of them is then skipped |
| ComponentBindings.KeySplitAtParent | src/shared/createComponentBinding.js:70 | the first `=` of a key sits right after a parent keypath that holds none |
| SpecialAttrs.ReadClass | src/view/helpers/specialAttrs.js:23-33 | the backwards splice loop returns `ClassNames(str)`: the pieces of the white-space split with the empty ones removed, none empty and none holding white space |
| SpecialAttrs.SpliceStep | src/view/helpers/specialAttrs.js:27-30 | looking at entry `i`, and splicing it out when empty, extends the cleaned tail by one entry |
| SpecialAttrs.SplitOnSpace | src/view/helpers/specialAttrs.js:24 | `split(/\s+/)` gives at least one piece, no piece holds white space, and the pieces put together are exactly the visible characters of the string |
| SpecialAttrs.SplitFromWords | src/view/helpers/specialAttrs.js:24 | no piece of a split on `/\s+/` contains white space |
| SpecialAttrs.NonEmptyKeepsWords | src/view/helpers/specialAttrs.js:26-30 | removing empty entries keeps only non-empty, white-space-free names |
| SpecialAttrs.ClassNamesKeepOrder | src/view/helpers/specialAttrs.js:23-33 | the class names, concatenated, are exactly the visible characters of the string in their original order |
| SpecialAttrs.ClassNamesBlank | src/view/helpers/specialAttrs.js:24-32 | the list is empty exactly when the string is empty or all white space |
| SpecialAttrs.ClassNamesRoundTrip | src/view/helpers/specialAttrs.js:23-33 | reading back a space-joined list of non-empty, white-space-free names gives exactly that list |
| SpecialAttrs.VisibleEmpty | src/view/helpers/specialAttrs.js:24-32 | a string has no visible character exactly when it is all white space |
| SpecialAttrs.Trim | src/view/helpers/specialAttrs.js:12 | `trim()` leaves a string no longer than its input that neither starts nor ends with white space |
| SpecialAttrs.TrimIsInfix | src/view/helpers/specialAttrs.js:12 | `trim` removes exactly a white-space prefix and a white-space suffix: the string is that prefix, the trimmed string and that suffix put together |
| SpecialAttrs.ReadStyle | src/view/helpers/specialAttrs.js:7-21 | a non-string gives the empty map; otherwise a name is a key exactly when some declaration of a non-blank rule declares it |
| SpecialAttrs.Declarations | src/view/helpers/specialAttrs.js:11-13 | one declaration per rule that is not blank after trimming |
| SpecialAttrs.SplitOn | src/view/helpers/specialAttrs.js:11 | `split(';')` gives at least one piece and no piece holds the separator |
| SpecialAttrs.SplitOnRoundTrip | src/view/helpers/specialAttrs.js:11 | joining the pieces back with `;` gives the input |
| SpecialAttrs.NonBlank | src/view/helpers/specialAttrs.js:12 | the `filter` keeps at most all rules, and every rule it keeps is a rule of the input that is not blank after trimming |
| SpecialAttrs.NonBlankMembers | src/view/helpers/specialAttrs.js:12 | a rule is kept exactly when it is a rule of the split and not blank after trimming |
| SpecialAttrs.DeclarationsFromNonBlankRules | src/view/helpers/specialAttrs.js:11-13 | every declaration comes from a non-blank rule of the masked text, passed through `reconstruct` |
| SpecialAttrs.IndexOf | src/view/helpers/specialAttrs.js:15 | the first position of `:`, or -1 exactly when there is none |
| SpecialAttrs.NamePart | src/view/helpers/specialAttrs.js:15-16 | `rule.substr(0, i)`: a prefix of the rule holding no `:`, empty when the rule has no `:` |
| SpecialAttrs.ValuePart | src/view/helpers/specialAttrs.js:15-17 | `rule.substr(i + 1)`: with a `:`, the name part, the colon and the value part make up the rule; without one, the whole rule |
| SpecialAttrs.Special | src/view/helpers/specialAttrs.js:17 | the `specials` lookup turns `float` into `cssFloat` and passes every other name through |
| SpecialAttrs.Declare | src/view/helpers/specialAttrs.js:15-17 | a declared name is never `float`; the value neither starts nor ends with white space, and is the whole trimmed rule when the rule has no `:` |
| SpecialAttrs.DeclareAtFirstColon | src/view/helpers/specialAttrs.js:15-17 | a rule with a `:` declares the trimmed, camelized text before its first `:` (with `float` renamed to `cssFloat`) and the trimmed text after it as the value |
| SpecialAttrs.DeclarationSplitsAtFirstColon | src/view/helpers/specialAttrs.js:15-17 | the name part is the text before the first `:`, the value part the text after it |
| SpecialAttrs.DeclarationWithoutColon | src/view/helpers/specialAttrs.js:15-17 | a rule without `:` declares the camelized empty name (renamed if special) with the whole trimmed rule as its value |
| SpecialAttrs.Collect | src/view/helpers/specialAttrs.js:14-19 | the `reduce` gives every declared name a key, and holds no more keys than declarations |
| SpecialAttrs.CollectedNames | src/view/helpers/specialAttrs.js:14-19 | a name is a key of the reduced map exactly when some declaration has that name |
| SpecialAttrs.CollectKeys | src/view/helpers/specialAttrs.js:14-19 | the same, for every name at once |
| SpecialAttrs.LaterDeclarationWins | src/view/helpers/specialAttrs.js:14-19 | the value of a key is that of the last declaration with that name |

## Left out

- DOM work is not part of this model: `detach`, `find`, `findAll`, `findComponent`, `findAllComponents`, `firstNode`, `findNextNode` and `findParentNode` return or change browser nodes. `resetTemplate` re-renders into an abstract `Target` instead of the document fragment and `insertBefore` branch. `render`'s `occupants` argument is dropped.
- The `runloop` scheduler is reduced to a log of its `addFragment`, `addFragmentToRoot` and `addInstance` calls. Its batching, deduplication, priority order and flush are not modelled.
- `createItem` and the concrete item kinds (element, section, partial, yielder) are one abstract `Item`. Its template says how it reacts to `bind` and `update`. Its own render, unbind, unrender and teardown logic is not modelled.
- Whether a parent fragment has a `resolve` method is the flag `parentResolves` of its owner; the repeated fragment, the kind of parent that has none, is not part of this model.
- `ReferenceResolver` is a record of its fragment and reference; its resolution logic is not modelled.
- `processItems` and `parseJSON` are one function parameter of `ValueOf` that either gives a parsed value or nothing. `isEqual`, `cleanCss` and `camelizeHyphenated` are function parameters too. Their source is not part of this model.
- `isArray(value) && value._ractive && value._ractive.setting` is a flag on the array case of `Value`.
- Viewmodel.Set: the real viewmodel notifies its dependants through the runloop at the end of a turn. The model notifies them synchronously inside `set`, which is the worst case for the `updating` guards. Keypath dependencies between parent and child keypaths are not modelled: a write reaches only the bindings registered on exactly that keypath.
- SpecialAttrs.Special: the `specials` lookup is an object property read. For a name such as `constructor` it finds an inherited property of `Object.prototype` instead of giving back the name. The model renames only `float`.
- `readStyle` receives a string or "not a string". Any other JavaScript value counts as the latter.
- `test/browser-tests/methods/toCSS.js` exercises `toCSS`, whose source is not part of this model.
