# monkey-around, modelled in Dafny

monkey-around patches methods of a JavaScript object in a way that can be
undone safely. `around(obj, factories)` replaces each named method with a
`wrapper` closure. The wrapper calls what the factory built around the
previous method (`current`). It returns an uninstaller:

- for one key, that install's own `remove`;
- for several keys, a function that runs every `remove` in key order.

`remove` takes two steps, in this order:

1. If the wrapper is still the slot's direct value, it puts the slot back:
   the own method is restored, or the property is deleted when it was
   inherited.
2. Then, unless the wrapper is already a pass-through, it becomes one
   (`current = original`). Its prototype link is reset to the captured
   value, or to `Function` when there was none, which skips its
   replacement.

A pass-through wrapper that is still the slot's direct value removes
itself at its next call.

`dedupe(key, oldFn, newFn)` builds a `check` function marked with
`check[key] = key`. The check runs `oldFn` when `oldFn` already carries
that mark, and `newFn` otherwise.

The model covers two builds of the library:

- `index.ts` captures `obj[method]` as `original`.
- `dist/index.mjs` differs for a method the object does not own. There the
  factory gets a fresh shim that looks the method up on the prototype at
  every call.

A `dynamic` flag selects the build.

Files:

- `heap.dfy` (module `Heap`): the part of the JavaScript heap the library
  works on.
  - Function objects, each with a behaviour, a mutable prototype link and
    its own properties.
  - The target object's own method slots and its prototype's slots.
  - The closure variables of each wrapper.
  - Property reads along prototype chains.
  - The primitive writes: `setPrototypeOf`, slot assignment, `delete`, and
    property assignment.
  - Every reference points to an older function, so chains and calls end.
- `guard.dfy` (module `Guard`): `dedupe`.
- `wrap.dfy` (module `Wrap`): the protocol as pure transitions of the heap.
  It covers `around1`, `remove`, calling a function (the wrapper included),
  `around` and the uninstaller.
- `patcher.dfy` (module `Patcher`): the protocol as it runs.
  - Class `Realm` holds the mutable heap.
  - Its methods update the fields step by step, as the source does.
  - Each method is proved to leave exactly the state that `Wrap` or `Guard`
    describes.
- `laws.dfy` (module `Laws`): what the protocol guarantees, and the test
  scenarios, stated for all heaps.
  - Removal restores the slot and is idempotent.
  - Properties are inherited through the wrapper.
  - Stacked wrappers call outermost first.
  - Inner removal skips the inner replacement.
  - A pass-through wrapper heals itself.
  - The uninstaller of `around` restores every slot, and running it again
    changes nothing.
- `stacking.dfy` (module `Stacking`): two wrappers stacked on one method,
  whether the method was own, inherited or missing, in either build.
  `Laws` proves the same scenarios with concrete traces for an own method.
- `variants.dfy` (module `Variants`): where the two builds differ, for
  inherited methods.
- `dispatch.dfy` (module `Dispatch`): how a `dedupe` check behaves when
  called.

How JavaScript behaviour is represented:

- A call is represented by its trace: the functions it entered, in order,
  and whether it ended in a TypeError.
- `Object.setPrototypeOf` throws a TypeError on a cyclic chain or an
  `undefined` prototype. Here that is the `TypeError` result of an install.

Two behaviours of the code are easy to miss:

- **An identity factory `f => f` does not install.** With `f => f`,
  `current` is `original` itself.
  - When the method exists, `Object.setPrototypeOf(current, original)`
    (`index.ts:19`) links a function to itself. That is a cyclic prototype
    chain, and it throws a TypeError.
  - When the method is missing, `current` is `undefined`, and
    `Object.setPrototypeOf(wrapper, current)` (`index.ts:20`) throws a
    TypeError.
  - So the model makes such an install fail and change nothing.
  - The one exception is the dynamic build on a method the object does not
    own: the factory receives a fresh shim, and the install succeeds.
  - `Wrap.Around1` states when each case happens.
- **The uninstaller for several keys runs every `remove` on every call**
  (`index.ts:8`). The model does the same. `Laws.RemoverIdempotent` proves
  that a second call changes nothing when the keys are distinct.

## Model

| member | source | states |
|---|---|---|
| Heap.SetLink | index.ts:19-20 | `Object.setPrototypeOf(f, l)` changes only `f`'s link; the heap stays well formed |
| Heap.LookupShadows | index.ts:14 | `obj[method]` finds a function exactly when the object or its prototype has `method`, the own slot shadowing the prototype's |
| Heap.Get | index.ts:17-19 | `f[p]` is `f`'s own property when it has one |
| Heap.GetFromChain | index.ts:17-19 | a property read that finds something finds the own property of `f` or of one of its ancestors, reached from `f` by following prototype links (`Heap.OnChain`) |
| Heap.SetOwn | index.ts:21 | `obj[m] = f`: `obj[m]` reads `f` afterwards; every other key reads as before |
| Heap.DeleteOwn | index.ts:35 | `delete obj[m]`: `obj[m]` reads the prototype's method, or nothing; other keys unchanged |
| Heap.AddWrapper | index.ts:20 | allocates the wrapper, linked to `current`, with its closure; older functions unchanged |
| Heap.SetCurrent | index.ts:39 | `current = original` changes only that closure variable |
| Heap.GetAgrees | index.ts:17-18 | a property read along the prototype chain depends only on the links and properties of the functions at and below the one read |
| Heap.PrefixGet | index.ts:17-18 | allocating new functions changes no property read of an existing function |
| Heap.SetProp | spec.js:60 | `f.p = v`: reading `p` from `f` gives `v`; every other property of `f` reads as before; no other function changes |
| Heap.DefineProto | dist/index.mjs:9 | replacing the ancestor's method: the prototype's `m` is a fresh host method; no other key's lookup changes |
| Guard.Dedupe | index.ts:44-46 | the fresh `check` is a dispatcher for `(key, oldFn, newFn)` carrying `check[key] == key`; nothing that existed changes |
| Guard.Choose | index.ts:49 | the check delegates to `oldFn` exactly when `oldFn[key] === key` (or both are the same function), and to `newFn` otherwise |
| Wrap.Around1 | index.ts:11-24 | the install fails with a TypeError exactly when the factory is `f => f` and the build captures `obj[m]` (static build, or an own method); otherwise it leaves `Installed`: the wrapper is the slot's direct value, no other slot changes, the closure records what `obj[m]` was and whether it was own, and the chain is wrapper → current → captured value |
| Wrap.Capture | dist/index.mjs:8-10 | in the dynamic build, a method the object does not own is captured as a fresh shim for `m`, the only function capturing allocates; in every other case `original` is `obj[m]` as the lookup finds it (index.ts:14) and the heap is unchanged; slots, closures and older functions are never touched |
| Wrap.Produce | index.ts:15 | the factory hands back `original` itself exactly when it is `f => f`; a forwarding factory's result is always a fresh relay calling `original` and carrying the factory's properties; slots, closures and older functions are unchanged |
| Wrap.Restored | index.ts:35 | the own slots `remove` leaves: `obj[m]` holds the captured method again when it was own, and is deleted otherwise; every other key keeps its slot |
| Wrap.Commit | dist/index.mjs:12-15 | the three writes: `current` is linked to the captured value (when there is one), the fresh wrapper is linked to `current`, and the slot holds the wrapper; nothing else changes |
| Wrap.StagedByCapture | index.ts:14-15 | capture and production together give a closure whose `current` is fresh and whose `original` matches the build |
| Wrap.CommitInstalls | index.ts:19-21 | committing that closure leaves exactly what `Installed` describes |
| Wrap.Remove | index.ts:32-41 | the slot is restored (own method put back, or the property deleted) exactly when the wrapper is its direct value, and is untouched otherwise; afterwards the wrapper is pass-through and no longer `obj[m]`; a wrapper that was not pass-through is relinked to the captured value or to `Function`; no other closure or function changes |
| Wrap.Relink | dist/index.mjs:32 | a removed wrapper is relinked to the value `obj[m]` held at install time when there was one, and to `Function` otherwise, never to `Function.prototype` |
| Wrap.Detach | index.ts:34-36 | the slot is put back only when the wrapper is its direct value; functions and closures unchanged |
| Wrap.Call | index.ts:26-30 | a call (a wrapper's self-removal included) changes no function, closure or prototype slot and adds no own slot; its trace starts with the function called |
| Wrap.CallMethod | spec.js:14 | `obj[m]()` can complete only when `obj[m]` holds a function; it changes no function, closure or prototype slot |
| Wrap.InstallAll | index.ts:7 | the installs only add closures and functions; the heap stays well formed |
| Wrap.Extend | index.ts:7 | one more install either fails or appends its wrapper to the handles so far, leaving `Installed` for its key |
| Wrap.InstallAllInOrder | index.ts:7 | the handles come back one per key, in key order: each is a wrapper for its key that did not exist before the call, and they were allocated one after another |
| Wrap.InOrderStep | index.ts:7 | key order, freshness and allocation order are kept when one more install appends its wrapper |
| Wrap.InstallAllStep | index.ts:7 | the installs over the first `i + 1` keys extend those over the first `i` |
| Wrap.InstallAllLast | index.ts:7 | the installs over all keys extend those over all but the last |
| Wrap.Around | index.ts:4-9 | on success `around` returns the install's own `remove` exactly when there is one key, and a fused uninstaller otherwise; either way its handles are wrappers this call created, one per key, in key order and in allocation order, all present in the heap it leaves |
| Wrap.RemoveAll | index.ts:8 | running the handles one after another keeps which closures exist, the number of functions and the prototype slots |
| Wrap.RemoveAllStep | index.ts:8 | running `i + 1` handles is running `i` handles, then `remove` of the next |
| Wrap.RunRemover | index.ts:8 | the uninstaller (one handle, or all of them in order) keeps the heap well formed and keeps which closures exist |
| Patcher.Realm.Around1 | index.ts:11-24 | the step-by-step `around1` returns the wrapper and leaves the heap `Wrap.Around1` gives, or throws and changes nothing |
| Patcher.Realm.Link | index.ts:19-21 | the three writes done in place leave what `Wrap.Commit` gives |
| Patcher.Realm.Remove | dist/index.mjs:22-33 | `remove()` in place leaves what `Wrap.Remove` gives |
| Patcher.Realm.Call | index.ts:26-30 | a call in place, the wrapper's self-removal included, leaves the heap and returns the trace of `Wrap.Call` |
| Patcher.Realm.CallMethod | spec.js:14 | `obj[m]()` in place agrees with `Wrap.CallMethod` |
| Patcher.Realm.InstallAll | index.ts:7 | the loop over the keys leaves the heap and the handles of `Wrap.InstallAll`, stopping at the first TypeError |
| Patcher.Realm.InstallNext | index.ts:7 | one iteration of that loop extends the installs so far, or ends them with the TypeError of the whole list |
| Patcher.InstallAllStops | index.ts:7 | once an install fails, installing the longer list gives that same failure and heap |
| Patcher.Realm.Around | index.ts:4-9 | `around` in place returns the uninstaller `Wrap.Around` gives |
| Patcher.Realm.RunRemover | index.ts:8 | the fused uninstaller's loop runs the handles in order and leaves what `Wrap.RunRemover` gives |
| Patcher.Realm.Dedupe | index.ts:44-46 | `dedupe` in place leaves what `Guard.Dedupe` gives |
| Laws.RemoveIdempotent | index.ts:32-41 | calling `remove()` a second time changes nothing |
| Laws.InstallRemoveRestores | spec.js:18-30 | install then remove gives back every own slot exactly: the same method when it was own, no own property when it was inherited or missing |
| Laws.RemoveRestoresHolding | index.ts:34-35 | removing the wrapper that took a slot last gives that slot back as it was |
| Laws.PropsThroughWrapper | index.ts:17-20 | the wrapper shows the factory's properties first, then those of the method it replaced (never the shim's); none when there was no method |
| Laws.ChainGet | index.ts:19-20 | a read through wrapper → current → captured gives current's property, else the captured one's |
| Laws.InstalledChain | index.ts:19-20 | every install builds that chain and leaves older functions unchanged |
| Laws.RemovedWrapperSkipsReplacement | dist/index.mjs:31-32 | a wrapper removed while covered shows the properties of the value it captured again (its replacement's are gone), or none when it captured nothing |
| Laws.InheritsLaterProps | spec.js:55-62 | a property set on the wrapped method after the install and a call is seen through the wrapper |
| Laws.AroundOneKey | index.ts:8 | `around` with one key returns that install's own `remove`, or its TypeError |
| Laws.InstallOne | index.ts:7 | the installs over one key are that key's `around1` |
| Laws.Stack | spec.js:31-38 | two forwarding installs on an own method: the outer wrapper holds the slot, and the heap has the stacked shape |
| Laws.ForwardOverOwn | index.ts:14-21 | a forwarding install over an own method allocates the relay, then the wrapper, in that exact shape |
| Laws.ComposeShapes | spec.js:32-38 | two such installs compose into the stacked shape |
| Laws.StackedCalls | spec.js:9-14 | a call goes outer wrapper → outer replacement → inner wrapper → inner replacement → original, and changes nothing |
| Laws.RemoveInner | index.ts:37-40 | removing the inner wrapper under the outer one makes it pass-through, relinked to the original; the slot keeps the outer wrapper |
| Laws.InnerRemovedCalls | spec.js:15-16 | after that, a call no longer runs the inner replacement but still reaches the original |
| Laws.SelfHealing | spec.js:45-53 | inner removed, then outer: the pass-through inner wrapper is left in the slot; its next call runs the original and puts the original method back |
| Laws.RemoveOuter | spec.js:51 | removing the outer wrapper after the inner one leaves the pass-through inner wrapper holding the slot |
| Laws.HealFrom | index.ts:28 | a pass-through wrapper holding its slot calls the original and restores the slot |
| Laws.SelfDetach | index.ts:26-30 | a pass-through wrapper that is still the slot's direct value removes itself, then calls what it captured |
| Laws.ReverseRemoval | index.ts:34-35 | removing the outer wrapper, then the inner one, restores the slot |
| Stacking.TwoInstalls | spec.js:31-38 | two forwarding installs on any method (own, inherited or missing, either build) both succeed and leave the stacked shape |
| Stacking.StackLayout | index.ts:14-21 | the stacked shape: the outer wrapper holds the slot and calls the outer replacement, which calls and links to the inner wrapper, whose replacement calls the inner `original` and links to what `obj[m]` was |
| Stacking.ThroughWrapper | index.ts:28-29 | a call of a wrapper that is not pass-through enters the wrapper, then its replacement, then whatever the replacement calls |
| Stacking.SkippingWrapper | index.ts:28-29 | a pass-through wrapper that is not the slot's direct value goes straight to its `original` |
| Stacking.SelfRemovingWrapper | index.ts:28-29 | a pass-through wrapper that is the slot's direct value removes itself, then calls its `original` |
| Stacking.StackedCallsAny | spec.js:9-14 | in every case, a call goes outer wrapper, outer replacement, inner wrapper, inner replacement, then the inner `original` |
| Stacking.InheritedOriginal | dist/index.mjs:8-10 | for a method that was not own, the inner `original` ends the call at the prototype's method: the one found at install time in the static build, the current one through the shim in the dynamic build; or a TypeError when there is none |
| Stacking.StackedCallsInherited | dist/index.mjs:8-10 | the full trace of a stacked call over an inherited or missing method, in each build |
| Stacking.InnerRemoved | index.ts:34-39 | removing the inner wrapper under the outer one leaves the slot and the outer pair alone and makes the inner wrapper pass-through |
| Stacking.InnerRemovedCallsAny | spec.js:15-16 | in every case, after that a call skips the inner replacement and still reaches the inner `original` |
| Stacking.OverSkipping | index.ts:28-29 | a call through an outer wrapper over a pass-through inner wrapper enters the outer wrapper, its replacement and the inner wrapper, then the inner `original` |
| Stacking.OuterRemoved | index.ts:34-35 | removing a wrapper that holds the slot and had replaced another wrapper puts that wrapper back in the slot |
| Stacking.ReverseRemovalAny | index.ts:34-35 | in every case, removing the outer wrapper, then the inner one, gives back every own slot |
| Stacking.BothRemoved | spec.js:50-51 | in every case, inner removed, then outer: the inner wrapper, pass-through, is back in the slot |
| Stacking.SelfHealingAny | spec.js:45-53 | in every case, its next call removes it, gives back every own slot (the method, or no own property), then runs the inner `original` |
| Stacking.PastReplacement | index.ts:19-20 | a property a wrapper's replacement lacks is read from what the replacement links to |
| Stacking.StackedPropsAny | spec.js:31-39 | in every case, the outer wrapper shows the outer replacement's properties, then the inner one's, then those of what `obj[m]` was |
| Stacking.InnerGonePropsAny | spec.js:40-41 | in every case, once the inner wrapper is removed, the outer wrapper shows only its own replacement's properties, then those of what `obj[m]` was |
| Laws.StackedProps | spec.js:31-39 | a property the inner replacement carries shows through the outer wrapper |
| Laws.InnerGoneProps | spec.js:40-41 | once the inner wrapper is removed, the outer wrapper shows the original's properties, not the inner replacement's |
| Laws.TookStep | index.ts:7 | installing a new key keeps every earlier key held by its own wrapper and every other slot unchanged |
| Laws.InstallAllTakes | index.ts:7 | after installing distinct keys, each is held by its own wrapper, which recorded the key's earlier value; every other slot is unchanged |
| Laws.RestoringStep | index.ts:8 | running the next handle restores its key and keeps the later keys held |
| Laws.HeldStep | index.ts:34-35 | that handle restores its own key and touches no later key |
| Laws.SpentStep | index.ts:39 | after its handle runs, each wrapper is pass-through and stays so |
| Laws.StaysSpent | index.ts:37 | running any handle keeps a pass-through wrapper pass-through |
| Laws.TookRestoring | index.ts:8 | before any handle runs, every key is still held |
| Laws.RemoveAllRestoring | index.ts:8 | after running the first handles, their keys are restored and the rest still held |
| Laws.RemoveAllRestores | index.ts:8 | running every handle of a distinct-key install restores every own slot and leaves every wrapper pass-through |
| Laws.AroundRestores | index.ts:4-9 | the uninstaller of `around` over distinct keys gives back exactly the own slots the object had before |
| Laws.RemoveSpentNoop | index.ts:34-37 | `remove()` of a pass-through wrapper that no longer holds its slot changes nothing |
| Laws.SpentNotInSlot | index.ts:34 | once the slots are back as they were before the installs, no wrapper holds a slot, so its `remove` leaves the slots alone |
| Laws.RemoveAllSpentNoop | index.ts:8 | once the slots are restored, running the spent handles again changes nothing |
| Laws.RerunNoop | index.ts:8 | the uninstaller built from those handles changes nothing on its second run |
| Laws.RemoverIdempotent | index.ts:4-9 | calling the uninstaller of `around` a second time changes nothing (distinct keys) |
| Variants.ForwardOverInherited | dist/index.mjs:8-15 | over a method the object does not own, a forwarding install leaves the relay calling the shim (dynamic build) or the captured value (static build) |
| Variants.RelayedCall | index.ts:29 | a call through a wrapper and its relay is those two steps, then the relay's target |
| Variants.ShimFollowsAncestor | dist/index.mjs:8-10 | dynamic build: after the ancestor's method is replaced, a call through the wrapper reaches the new method |
| Variants.FrozenCapture | index.ts:14-15 | static build: the wrapper keeps calling the method captured at install time, even after the ancestor's method is replaced; if there was none, calls keep throwing |
| Variants.FrozenFound | index.ts:14-15 | the found case of that law |
| Variants.IdentityOverInherited | dist/index.mjs:8-11 | dynamic build: `f => f` on an inherited method installs a wrapper whose `current` is the shim |
| Variants.IdentityShimSelfRemoves | dist/index.mjs:17-20 | that wrapper is pass-through from the start: its first call removes it (own slots as before) and runs the ancestor's method through the shim |
| Variants.ShimSelfRemoves | dist/index.mjs:17-27 | the same, from the shape the install leaves |
| Dispatch.DedupeDispatch | index.ts:47-50 | calling the check runs `oldFn` if and only if `oldFn[key] == key`, and `newFn` otherwise |
| Dispatch.NestedDedupeDefers | index.ts:48-49 | a second `dedupe` with the same key, around the first check, defers to the first check |

## Left out

- `serialize` and `after` (`index.ts:53-71`) are left out. They are promise-based asynchronous code, which is outside this model.
- `dist/index.cjs` and the `.d.ts` files are other packagings of the same functions.
- `index.js` is an older build, not modelled. Its `around(obj, method, createWrapper)` (`index.js:4`) patches a single method, it has no `dedupe`, and its `remove` (`index.js:21-32`) has no early return for a wrapper that is already a pass-through.
- `this` and call arguments are not modelled. A call is represented by the functions it enters, in order, and whether it throws.
- Factories are modelled as two kinds only: `f => f`, and a factory that returns a fresh function calling `f` and carrying some properties. Arbitrary factory code, including a factory that throws, is not modelled.
- Host methods: the methods the object owns before any install, and every method of its prototype, are host functions. Calling one only enters it: it never wraps, removes or writes anything. Chains of more than one prototype level are not modelled.
- An own slot never holds `undefined` or a non-function value.
- Properties that `Function.prototype` and `Function` themselves provide are not modelled. A property read that reaches them finds nothing.
- Allocation order: the model allocates each install's `wrapper` after the factory's result, while JavaScript creates it first. Identity, not order, is what the code observes.
- `spec.js` calls `around(obj, "thing", factory)` with a string key. The model follows the mapping form of `index.ts:4-9`.
- Keys: the model represents keys as a sequence of pairs. `Object.keys` order, and the absence of duplicate keys, are assumptions of `Laws.AroundRestores` and `Laws.RemoverIdempotent` rather than something derived.
- Guard.Dedupe: in JavaScript `dedupe`'s `key` may be a symbol. The model's keys are strings only.
- Guard.Dedupe: functions' built-in own properties `name`, `length` and `prototype` are not modelled. `name` and `length` are read-only, so in strict code `check[key] = key` throws a TypeError for those two keys. The model's `dedupe` succeeds for every key.
- Laws.PropsThroughWrapper: a fresh wrapper has no own properties in the model. In JavaScript it has its own `name`, `length` and `prototype`, so reading one of those through the wrapper finds the wrapper's own value.
