# ListBinding and ListProperty, modelled in Dafny

This project models the Eclipse data-binding machinery that keeps two
observable lists in sync: the *target* (typically a widget's list) and the
*model*. It also models the list property accessor that reads and writes a
list-valued property of a source object.

- `list_diffs.dfy` (module `ListDiffs`) covers list diffs. A diff's entries
  are Add, Remove, Move and Replace. Add, Remove and Replace are applied
  with the list's own add, remove and set operations. A Move is applied as
  a remove followed by an add of the entry's element, which is the
  visitor's default. An index out of range throws. `ListDiff.applyTo` is
  `ApplyDiff`. A diff producer, `ComputeDiff`, comes
  with its round-trip contract.
- `update_list_strategy.dfy` (module `UpdateListStrategy`) covers the
  strategy of one direction. It has the update policy (NEVER, ON_REQUEST,
  UPDATE), the `useMoveAndReplace` flag and the element converter. It also
  has the four destination calls `doAdd`, `doRemove`, `doMove` and
  `doReplace`: each catches the destination's exception and reports an
  error status. The file also holds the status values and the multi-status
  aggregate.
- `list_binding.dfy` (module `ListBindings`) covers `ListBinding`:
  - The binding's own use of the strategy: `mergeStatus` (`MergeStatus`)
    and the policy gate of `doUpdate` (`Propagates`).
  - The diff visitor of `doUpdate` as pure functions: `Visit` handles one
    entry and `ReplayFrom` handles the whole diff.
  - The binding's fields as a value, `BindingState`, with one function per
    operation: `AfterUpdate`, `AfterTargetChange`, `AfterModelChange`,
    `AfterUpdateModelToTarget`, `AfterUpdateTargetToModel`,
    `AfterPreInit`, `AfterPostInit` and `AfterDispose`.
  - The lemmas about those functions.
  - The class `ListBinding`. Its fields are the two lists, the two
    re-entrancy flags `updatingTarget` and `updatingModel`, the two
    listener slots, the registration of each listener with its list, and
    the validation status. Each method is proved to leave `State()` equal
    to the matching function of the old state.
- `list_property.dfy` (module `ListProperties`) covers `ListProperty`. The
  property's value on each source lives in a map (`PropertyValues`).
  `observe` creates a fresh `SourceList`, a live view with a `disposed`
  flag. `getList`, `setList` and `updateList` are methods that guard
  against a null source (`Option`) and delegate to `doGetList`,
  `doSetList` and `doUpdateList`. Each is tied to a pure function of the
  property values.

How the source's mechanisms are represented:

- `realm.exec(...)` runs its body at once, and an exception thrown inside
  the body propagates to the caller of `exec` (see "## Left out").
- Identifying the destination by comparing references (`destination ==
  getTarget()`) becomes a `Direction` parameter.
- When a list changes, it notifies its registered listeners. In the model,
  every write the binding makes to a destination (its `clear()` and each
  successful strategy call) is delivered to the binding's own listener on
  that list, if registered. Because the destination's flag is set, the
  listener ignores the echo. Dafny checks this on every write, and the
  mutual recursion terminates by a measure on the flags.
- An exception that escapes a replay is a `completed == false` result.
  `UpdateListStrategy.convert` has no try block, so the converter (`None`
  when it throws) can raise one. The `finally` block of `doUpdate` still
  publishes the aggregate and clears the flag.
- The destination calls fail in two cases: an index out of range, or the
  strategy's `vetoes` oracle, which stands for any other exception the
  destination raises. A refusal is a fixed function of the call (its kind,
  index and element), not of what the destination holds.

Two consequences of the code:

- `postInit` registers a listener only for an UPDATE direction. An
  ON_REQUEST direction has its listener slot nulled, just as NEVER does
  (ListBinding.java:87-110). So the ON_REQUEST gate in `doUpdate` only
  matters for a call that bypasses the listeners.
- A diff from the empty list adds the elements at indices 0, 1, 2, ....
  When the destination refuses one Add in the middle, every later Add's
  index is out of range, so those Adds fail too. The destination keeps
  only the elements before the refused one (`MiddleAddRefused`). It does
  not hold "all elements but the failing one".

## Model

| member | source | states |
|---|---|---|
| `ListDiffs.Mutate` | bundles/org.eclipse.core.databinding/src/org/eclipse/core/databinding/ListBinding.java:169-198 | A list operation succeeds iff its indices are in range: add allows the end index, the others need an existing element. Add grows the list by one, remove shrinks it by one, move and set keep its length. |
| `ListDiffs.ApplyEdit` | bundles/org.eclipse.core.databinding.property/src/org/eclipse/core/databinding/property/list/ListProperty.java:128 | One entry applies iff its indices are in range for the list at that point. A Move needs both indices to name existing elements. An entry that applies changes the length by one for Add, minus one for Remove and zero otherwise. A failing Add, Remove or Replace leaves the list as it was. |
| `ListDiffs.ApplyDiff` | bundles/org.eclipse.core.databinding.property/src/org/eclipse/core/databinding/property/list/ListProperty.java:128 | The empty diff applies to any list and changes nothing. A diff that fully applies changes the length by the number of Adds minus the number of Removes. |
| `ListDiffs.ComputeDiff` | bundles/org.eclipse.core.databinding/src/org/eclipse/core/databinding/ListBinding.java:117 | The diff is empty exactly when the two lists are equal. From the empty list it is the Adds of the new list, in order. |
| `ListDiffs.DiffRoundTrip` | bundles/org.eclipse.core.databinding.property/src/org/eclipse/core/databinding/property/list/ListProperty.java:103 | Applying `ComputeDiff(a, b)` to `a` succeeds and yields `b`. The diff accurately describes that change. |
| `ListDiffs.CommonPrefix` | bundles/org.eclipse.core.databinding.property/src/org/eclipse/core/databinding/property/list/ListProperty.java:103 | Returns the length of the longest common prefix: the lists agree up to it and differ at it. |
| `ListDiffs.ApplyDiffAppend` | bundles/org.eclipse.core.databinding.property/src/org/eclipse/core/databinding/property/list/ListProperty.java:128 | Applying two diffs in a row is applying their concatenation. A failure in the first diff stops the application. |
| `ListDiffs.DescribedDiffApplies` | bundles/org.eclipse.core.databinding.property/src/org/eclipse/core/databinding/property/list/ListProperty.java:128 | An accurate diff of a list always applies to that list without an exception. |
| `ListBindings.MergeStatus` | bundles/org.eclipse.core.databinding/src/org/eclipse/core/databinding/ListBinding.java:233-237 | Only a status that is not OK is added. The aggregate is OK afterwards iff it was OK before and the merged status is OK. An aggregate of failures stays one. |
| `UpdateListStrategy.Perform` | bundles/org.eclipse.core.databinding/src/org/eclipse/core/databinding/ListBinding.java:169-198 | A destination call returns OK and applies the mutation iff the destination does not refuse it and its indices are in range. Otherwise it returns an error and leaves the destination unchanged. |
| `ListBindings.Propagates` | bundles/org.eclipse.core.databinding/src/org/eclipse/core/databinding/ListBinding.java:149-151 | The gate of doUpdate: never open under NEVER, always open under UPDATE, and open under ON_REQUEST exactly for an explicit call. |
| `ListBindings.MutationStep` | bundles/org.eclipse.core.databinding/src/org/eclipse/core/databinding/ListBinding.java:177-179 | One strategy call with its status merged. An accepted call in range applies the mutation and merges nothing. A refused or out-of-range call leaves the destination and merges one Error. It never aborts the replay. |
| `ListBindings.AddStep` | bundles/org.eclipse.core.databinding/src/org/eclipse/core/databinding/ListBinding.java:168-173 | handleAdd. A converter that throws aborts the replay with nothing else changed. Otherwise the converted element is inserted at the index when the destination accepts it and the index is in range, and one Error is merged when not. |
| `ListBindings.ReplaceStep` | bundles/org.eclipse.core.databinding/src/org/eclipse/core/databinding/ListBinding.java:196-200 | The corrected direct handleReplace. A converter that throws aborts the replay. Otherwise the converted element is written at the index when the destination accepts it and the index is in range, and one Error is merged when not. |
| `ListBindings.Visit` | bundles/org.eclipse.core.databinding/src/org/eclipse/core/databinding/ListBinding.java:164-205 | The corrected visitor on one entry. It throws exactly when a conversion it needs fails: handleAdd, the add half of the default Move and Replace, and the corrected direct Replace. It makes at most two destination calls, so the aggregate gains at most two children. |
| `ListBindings.VisitAsWritten` | bundles/org.eclipse.core.databinding/src/org/eclipse/core/databinding/ListBinding.java:195-200 | The visitor as written. A direct Replace (with `useMoveAndReplace`) never converts and so never throws: it makes the one doReplace call with `newElement` as it came and merges its status. Every other entry is visited as the corrected visitor visits it. |
| `ListBindings.ReplayFrom` | bundles/org.eclipse.core.databinding/src/org/eclipse/core/databinding/ListBinding.java:163-205 | `diff.accept` with the corrected visitor. A replay that has aborted stays as it is. The aggregate gains at most two children per entry. |
| `ListBindings.ReplayAsWrittenFrom` | bundles/org.eclipse.core.databinding/src/org/eclipse/core/databinding/ListBinding.java:163-205 | `diff.accept` with the visitor as written. A replay that has aborted stays as it is. |
| `ListBindings.AsWrittenAgrees` | bundles/org.eclipse.core.databinding/src/org/eclipse/core/databinding/ListBinding.java:195-200 | The two replays agree on every diff without `useMoveAndReplace`. With it, they agree on every diff whose Replace entries the converter maps to themselves. So they differ only on a direct Replace whose new element the converter changes or rejects. |
| `ListBindings.ExplicitUpdateAsWritten` | bundles/org.eclipse.core.databinding/src/org/eclipse/core/databinding/ListBinding.java:114-129 | For the diff of an explicit update (from the empty list, so only Adds), the corrected replay and the replay as written give the same result, for every strategy and every list. |
| `ListBindings.ReplayMergesOnlyFailures` | bundles/org.eclipse.core.databinding/src/org/eclipse/core/databinding/ListBinding.java:158-205 | A replay that starts from an aggregate of failures ends with an aggregate of failures: only failures are merged. Children merged earlier are kept, in order. |
| `ListBindings.FailuresDoNotAbort` | bundles/org.eclipse.core.databinding/src/org/eclipse/core/databinding/ListBinding.java:164-205 | With a converter that never throws, a replay visits every entry, whatever the destination calls return. |
| `ListBindings.AddsReplayAppend` | bundles/org.eclipse.core.databinding/src/org/eclipse/core/databinding/ListBinding.java:168-173 | Replaying Adds onto a destination that accepts every add appends the converted elements in source order and merges no status. |
| `ListBindings.AppendAccepted` | bundles/org.eclipse.core.databinding/src/org/eclipse/core/databinding/ListBinding.java:168-173 | An Add at the end whose element converts and which the destination accepts appends the converted element and merges no status. |
| `ListBindings.AddRefused` | bundles/org.eclipse.core.databinding/src/org/eclipse/core/databinding/ListBinding.java:168-173 | An Add whose element converts but which the destination refuses, or whose index is out of range, leaves the destination and merges one failure. |
| `ListBindings.MoveMirrorsApply` | bundles/org.eclipse.core.databinding/src/org/eclipse/core/databinding/ListBinding.java:182-192 | Take a destination that accepts every call and a converter that keeps the moved element. A Move of the element at the old index, with both indices in range, changes the destination as removing it and adding it at the new index would, in either `useMoveAndReplace` mode. |
| `ListBindings.VisitMirrorsApply` | bundles/org.eclipse.core.databinding/src/org/eclipse/core/databinding/ListBinding.java:164-205 | Take a destination that accepts every call and the identity converter. In either `useMoveAndReplace` mode, visiting an accurate entry changes the destination as applying the entry would, with no status merged. |
| `ListBindings.ReplayMirrorsApply` | bundles/org.eclipse.core.databinding/src/org/eclipse/core/databinding/ListBinding.java:164-205 | Under the same conditions, replaying an accurate diff reproduces the change on the destination. |
| `ListBindings.ReplaceModesAgree` | bundles/org.eclipse.core.databinding/src/org/eclipse/core/databinding/ListBinding.java:194-204 | Take a destination that accepts every call, an index in range and a new element that converts. Then in the corrected visitor a Replace gives the same result with and without `useMoveAndReplace`: the converted element is written at the index and no status is merged. |
| `ListBindings.ReplaceSkipsConverterAsWritten` | bundles/org.eclipse.core.databinding/src/org/eclipse/core/databinding/ListBinding.java:195-200 | In the visitor as written, a converter that increments gives a Replace of 0 by 5 the result 5 with `useMoveAndReplace` and 6 without it. |
| `ListBindings.MiddleAddRefused` | bundles/org.eclipse.core.databinding/src/org/eclipse/core/databinding/ListBinding.java:161-207 | Take the identity converter and a destination that accepts the first Add and refuses the second. The explicit update's diff for [a, b, c], replayed onto an empty destination, leaves it as [a]. The aggregate has two failing children, because the third Add is still attempted and fails on its index. |
| `ListBindings.AfterUpdate` | bundles/org.eclipse.core.databinding/src/org/eclipse/core/databinding/ListBinding.java:145-220 | doUpdate does nothing when the policy gate is closed. Otherwise it leaves the destination's flag false, publishes an aggregate made only of failures, and keeps the source list, the other flag and the listener wiring. |
| `ListBindings.AfterTargetChange` | bundles/org.eclipse.core.databinding/src/org/eclipse/core/databinding/ListBinding.java:42-47 | A target change event propagates only under a target-to-model UPDATE policy; otherwise nothing changes. The target and its flag are never touched. A propagated event ends with the model's flag false. |
| `ListBindings.AfterModelChange` | bundles/org.eclipse.core.databinding/src/org/eclipse/core/databinding/ListBinding.java:48-53 | The mirror image: only a model-to-target UPDATE policy propagates, the model and its flag are never touched, and a propagated event ends with the target's flag false. |
| `ListBindings.AfterUpdateModelToTarget` | bundles/org.eclipse.core.databinding/src/org/eclipse/core/databinding/ListBinding.java:114-120 | Under NEVER nothing changes. Otherwise the target's flag ends false and a status is published. The model and its flag are never touched. |
| `ListBindings.AfterUpdateTargetToModel` | bundles/org.eclipse.core.databinding/src/org/eclipse/core/databinding/ListBinding.java:123-129 | The mirror image for target to model. |
| `ListBindings.AfterPreInit` | bundles/org.eclipse.core.databinding/src/org/eclipse/core/databinding/ListBinding.java:75-83 | preInit sets the validation status to OK and changes nothing else. |
| `ListBindings.AfterPostInit` | bundles/org.eclipse.core.databinding/src/org/eclipse/core/databinding/ListBinding.java:86-111 | A model-to-target UPDATE registers its listener, and any other model-to-target policy nulls the slot. The same holds for target to model when the first synchronisation completes. Only a synchronising update can throw. Unless model to target is NEVER, the model is left alone. Without a synchronising direction, both lists and the status are left alone. |
| `ListBindings.AfterWireModel` | bundles/org.eclipse.core.databinding/src/org/eclipse/core/databinding/ListBinding.java:87-94 | The model half of postInit. Under model-to-target UPDATE the model listener ends registered; otherwise only its slot is nulled and the call completes. The model is never written, a status stays present, and the target listener is untouched. |
| `ListBindings.AfterWireTarget` | bundles/org.eclipse.core.databinding/src/org/eclipse/core/databinding/ListBinding.java:96-110 | The target half of postInit. Under target-to-model UPDATE the target listener ends registered; otherwise only its slot is nulled and the call completes. The target is never written. Unless target to model is UPDATE and model to target NEVER, it completes and leaves the model and the status alone. The model listener is untouched. |
| `ListBindings.AfterDispose` | bundles/org.eclipse.core.databinding/src/org/eclipse/core/databinding/ListBinding.java:239-252 | Both slots end null. With consistent wiring, no listener stays registered. The count is one per slot that was non-null. The lists and the status are untouched. |
| `ListBindings.PolicyGates` | bundles/org.eclipse.core.databinding/src/org/eclipse/core/databinding/ListBinding.java:149-151 | Under NEVER doUpdate changes nothing. Under ON_REQUEST a non-explicit doUpdate changes nothing. An explicit one under any other policy clears the flag afterwards. |
| `ListBindings.UpdateReplays` | bundles/org.eclipse.core.databinding/src/org/eclipse/core/databinding/ListBinding.java:152-216 | Whenever the gate is open, doUpdate replays the diff onto the destination, cleared first when asked. The destination ends as `ReplayFrom` leaves it, the published aggregate holds `ReplayFrom`'s children, and the call completes iff the replay did not abort. |
| `ListBindings.EchoIgnored` | bundles/org.eclipse.core.databinding/src/org/eclipse/core/databinding/ListBinding.java:42-53 | A target event while `updatingTarget` is set, or a model event while `updatingModel` is set, changes nothing. |
| `ListBindings.UpdateRestoresFlags` | bundles/org.eclipse.core.databinding/src/org/eclipse/core/databinding/ListBinding.java:153-157 | An update that starts with both flags false ends with both false, even if the replay aborts, and keeps the listener wiring consistent. |
| `ListBindings.ExplicitUpdateCopies` | bundles/org.eclipse.core.databinding/src/org/eclipse/core/databinding/ListBinding.java:113-120 | Take an explicit model-to-target update, a policy other than NEVER and a destination that accepts every add, with every element converting. The target ends equal to the converted model in model order, the model is unchanged, and the aggregate is OK and empty. |
| `ListBindings.ExplicitUpdateCopiesBack` | bundles/org.eclipse.core.databinding/src/org/eclipse/core/databinding/ListBinding.java:122-129 | The same for an explicit target-to-model update: the model ends equal to the converted target. |
| `ListBindings.PostInitWiring` | bundles/org.eclipse.core.databinding/src/org/eclipse/core/databinding/ListBinding.java:86-111 | On a freshly constructed, pre-initialised binding, postInit ends with both flags false and the wiring consistent. A direction keeps and registers its listener iff its policy is UPDATE. Model-to-target UPDATE leaves the target its explicit update gives. Model-to-target ON_REQUEST leaves both lists and the OK status alone. Model-to-target NEVER with target-to-model UPDATE leaves the model its explicit update gives and the target alone. Model-to-target UPDATE leaves the model alone. Model-to-target NEVER with target-to-model not UPDATE leaves both lists and the OK status alone. |
| `ListBindings.DisposeIdempotent` | bundles/org.eclipse.core.databinding/src/org/eclipse/core/databinding/ListBinding.java:239-252 | On a state whose registered listeners are all in their slots, dispose leaves both slots null and no listener registered. It reports one detach per non-null slot. A second dispose detaches nothing and changes nothing. |
| `ListBindings.OneWayBinding` | bundles/org.eclipse.core.databinding/src/org/eclipse/core/databinding/ListBinding.java:42-120 | Take model-to-target UPDATE with the default converter and a target that accepts every call, and target-to-model NEVER. After initialisation the target equals the model and the status is OK. An accurate model change event then brings the target to the new model with an OK status. A target change event changes nothing. |
| `ListBindings.ListBinding.constructor` | bundles/org.eclipse.core.databinding/src/org/eclipse/core/databinding/ListBinding.java:61-67 | Stores the lists and strategies. Both listener slots are filled, nothing is registered, both flags are false, and there is no status yet. |
| `ListBindings.ListBinding.PreInit` | bundles/org.eclipse.core.databinding/src/org/eclipse/core/databinding/ListBinding.java:75-83 | The validation status becomes OK. Nothing else changes. |
| `ListBindings.ListBinding.PostInit` | bundles/org.eclipse.core.databinding/src/org/eclipse/core/databinding/ListBinding.java:86-111 | The new state and the completion are those of `AfterPostInit`. |
| `ListBindings.ListBinding.WireModel` | bundles/org.eclipse.core.databinding/src/org/eclipse/core/databinding/ListBinding.java:86-93 | The model side of postInit: under model-to-target UPDATE the listener is registered and the model is synchronised to the target, otherwise the slot is nulled. A status exists afterwards. |
| `ListBindings.ListBinding.WireTarget` | bundles/org.eclipse.core.databinding/src/org/eclipse/core/databinding/ListBinding.java:95-109 | The target side of postInit: under target-to-model UPDATE the listener is registered, and the target is synchronised to the model when model to target is NEVER. Otherwise the slot is nulled. |
| `ListBindings.ListBinding.UpdateModelToTarget` | bundles/org.eclipse.core.databinding/src/org/eclipse/core/databinding/ListBinding.java:114-120 | The new state is that of doUpdate with the Adds of the model, explicit and clearing the target. |
| `ListBindings.ListBinding.UpdateTargetToModel` | bundles/org.eclipse.core.databinding/src/org/eclipse/core/databinding/ListBinding.java:123-129 | The same with the Adds of the target, clearing the model. |
| `ListBindings.ListBinding.TargetChangeListener` | bundles/org.eclipse.core.databinding/src/org/eclipse/core/databinding/ListBinding.java:42-47 | While `updatingTarget` is set nothing changes. Otherwise the event's diff is replayed onto the model, non-explicitly and without clearing. |
| `ListBindings.ListBinding.ModelChangeListener` | bundles/org.eclipse.core.databinding/src/org/eclipse/core/databinding/ListBinding.java:48-53 | While `updatingModel` is set nothing changes. Otherwise the event's diff is replayed onto the target. |
| `ListBindings.ListBinding.Write` | bundles/org.eclipse.core.databinding/src/org/eclipse/core/databinding/ListBinding.java:161-162 | A write to the destination, made while its flag is set, changes only that list. The change event reaches the binding's own listener, which ignores it. |
| `ListBindings.ListBinding.Call` | bundles/org.eclipse.core.databinding/src/org/eclipse/core/databinding/ListBinding.java:177-179 | One strategy call on the destination changes the destination and the aggregate as `MutationStep` says. |
| `ListBindings.ListBinding.HandleAdd` | bundles/org.eclipse.core.databinding/src/org/eclipse/core/databinding/ListBinding.java:168-173 | handleAdd converts and then calls doAdd. A converter failure aborts the replay with nothing changed. |
| `ListBindings.ListBinding.HandleEdit` | bundles/org.eclipse.core.databinding/src/org/eclipse/core/databinding/ListBinding.java:164-205 | One entry changes the destination, the aggregate and the abort flag as `Visit` says, including the remove-then-add fallback for Move and Replace. |
| `ListBindings.ListBinding.VisitEntry` | bundles/org.eclipse.core.databinding/src/org/eclipse/core/databinding/ListBinding.java:164-205 | Handling one entry keeps the loop's account: replaying the rest of the diff from the new state reaches the same end as replaying from that entry. |
| `ListBindings.ListBinding.Accept` | bundles/org.eclipse.core.databinding/src/org/eclipse/core/databinding/ListBinding.java:158-205 | The entries are handled in order, starting from an empty aggregate and stopping at the first abort. The result is `ReplayFrom`'s. |
| `ListBindings.ListBinding.DoUpdate` | bundles/org.eclipse.core.databinding/src/org/eclipse/core/databinding/ListBinding.java:145-220 | The new state and the completion are those of `AfterUpdate`. |
| `ListBindings.ListBinding.Dispose` | bundles/org.eclipse.core.databinding/src/org/eclipse/core/databinding/ListBinding.java:239-252 | The new state and the detach count are those of `AfterDispose`. |
| `ListProperties.PropertyList` | bundles/org.eclipse.core.databinding.property/src/org/eclipse/core/databinding/property/list/ListProperty.java:57-62 | What getList returns: the empty list for a null source, otherwise the source's current list. |
| `ListProperties.AfterUpdateList` | bundles/org.eclipse.core.databinding.property/src/org/eclipse/core/databinding/property/list/ListProperty.java:110-132 | updateList keeps the set of sources and leaves every source other than the one passed untouched. A null source changes nothing. |
| `ListProperties.AfterSetList` | bundles/org.eclipse.core.databinding.property/src/org/eclipse/core/databinding/property/list/ListProperty.java:86-104 | setList with a null source changes nothing. Otherwise the source's list becomes exactly the new list and no other source changes. |
| `ListProperties.SetThenGet` | bundles/org.eclipse.core.databinding.property/src/org/eclipse/core/databinding/property/list/ListProperty.java:57-62 | After setList, getList on the same source returns the list that was set. A null source still reads as empty. |
| `ListProperties.UpdateWithAccurateDiff` | bundles/org.eclipse.core.databinding.property/src/org/eclipse/core/databinding/property/list/ListProperty.java:125-129 | updateList with an accurate diff of the source's list always applies fully and leaves the list the diff describes. |
| `ListProperties.SourceList.Snapshot` | bundles/org.eclipse.core.databinding.property/src/org/eclipse/core/databinding/property/list/ListProperty.java:76 | The copy equals the observed source's list. |
| `ListProperties.SourceList.Dispose` | bundles/org.eclipse.core.databinding.property/src/org/eclipse/core/databinding/property/list/ListProperty.java:78 | dispose marks the observable disposed. Its source and property values are constants, so nothing else changes. |
| `ListProperties.SourceList.Apply` | bundles/org.eclipse.core.databinding.property/src/org/eclipse/core/databinding/property/list/ListProperty.java:128 | applyTo writes `ApplyDiff` of the old list into the source and reports whether every entry applied. Other sources are unchanged. |
| `ListProperties.ListProperty.DoGetList` | bundles/org.eclipse.core.databinding.property/src/org/eclipse/core/databinding/property/list/ListProperty.java:73-80 | Returns the source's list and leaves the fresh observable it created disposed. |
| `ListProperties.ListProperty.GetList` | bundles/org.eclipse.core.databinding.property/src/org/eclipse/core/databinding/property/list/ListProperty.java:57-62 | Returns the empty list for a null source, otherwise the source's list. |
| `ListProperties.ListProperty.DoUpdateList` | bundles/org.eclipse.core.databinding.property/src/org/eclipse/core/databinding/property/list/ListProperty.java:125-132 | The diff is applied to the source's list and nothing else changes. The fresh observable is disposed, also when an entry throws. |
| `ListProperties.ListProperty.UpdateList` | bundles/org.eclipse.core.databinding.property/src/org/eclipse/core/databinding/property/list/ListProperty.java:110-114 | A null source changes nothing. Otherwise it works as doUpdateList does. |
| `ListProperties.ListProperty.DoSetList` | bundles/org.eclipse.core.databinding.property/src/org/eclipse/core/databinding/property/list/ListProperty.java:102-104 | Applies the diff from the current list to the new one. The source's list becomes exactly the new list. |
| `ListProperties.ListProperty.SetList` | bundles/org.eclipse.core.databinding.property/src/org/eclipse/core/databinding/property/list/ListProperty.java:86-90 | A null source changes nothing. Otherwise the result is that of `AfterSetList`. |

## Left out

- AfterUpdate (`ListBindings.AfterUpdate`) replays through the corrected visitor `Visit`, which is not the code as written. A direct Replace with `useMoveAndReplace` converts `newElement` and aborts when the converter throws, whereas ListBinding.java:197-198 passes it unconverted and cannot throw there. `ReplayAsWrittenFrom` is the as-written replay, and `AsWrittenAgrees` states when the two agree.
- DoUpdate (`ListBindings.ListBinding.DoUpdate`) has the same gap, since it is proved equal to `AfterUpdate`.
- Accept (`ListBindings.ListBinding.Accept`) has the same gap: its loop is proved equal to `ReplayFrom`, not to `ReplayAsWrittenFrom`.
- HandleEdit (`ListBindings.ListBinding.HandleEdit`) has the same gap: its direct Replace branch converts before doReplace, as `Visit` does.
- ReplayFrom (`ListBindings.ReplayFrom`) has the same gap for the same reason. Only the two listeners inherit it through `AfterUpdate`. The explicit updates, and so postInit, replay a diff from the empty list, which holds only Adds; there the two replays agree (`ExplicitUpdateAsWritten`).
- AfterPostInit (`ListBindings.AfterPostInit`) lets an exception from the model-to-target synchronisation propagate out of `exec` and out of postInit. postInit then skips its target half (ListBinding.java:96-110), so under a target-to-model policy other than UPDATE the target slot is not nulled. `exec` is not part of this model, and the code shown does not settle whether it contains such an exception. This is a modelling choice.
- PostInit (`ListBindings.ListBinding.PostInit`) makes the same choice, since it is proved equal to `AfterPostInit`.
- A destination that refuses a call depending on its contents (a list that rejects an element it already holds, say) is not modelled: `vetoes` depends only on the call.
- Realm marshaling (`getRealm().exec`, the validation realm) is left out: every body runs immediately on the caller's thread.
- `ObservableTracker.setIgnore` around the status allocation in `preInit` is left out: it switches global dependency tracking, which nothing here observes.
- `validateModelToTarget` and `validateTargetToModel` do nothing in the source. `postInit` models its call to the second as doing nothing.
- `getValidationStatus` is left out: it only reads the `validationStatus` field.
- The `Binding` base class (`init`, `super.dispose`, the context) is not part of this model. `ListBinding.Dispose` models only the listener teardown.
- `Diffs.computeListDiff` is not part of this model. `ComputeDiff` stands in for it: it keeps the common prefix, removes the rest and adds the rest. It meets the contract the binding and the property rely on, but it is not the source's minimal diff.
- `UpdateListStrategy`, `MultiStatus` and `BindingStatus` are not part of this model: they are specified only through `Perform`, `MergeStatus` and `Status`. Status messages and severities other than OK and error are not modelled.
- Both lists hold elements of one type `T`, and the converter maps `T` to `T`. The source converts between two element types.
- The lists are values held by the binding. Aliasing (target and model being one list) and listeners other than the binding's own are not modelled.
- `destination.clear()` is modelled as always succeeding. An exception it might raise is not modelled.
- `observe`, `listFactory`, `observeDetail` and `values` (ListProperty.java:134-157) are left out as master-detail and factory wiring. `ListProperty.Observe` stands in for `observe`: it views the property values map.
- Every non-null source is required to have an entry in the property values map. The source has no missing-property case.
- A call made before `preInit` is not modelled: `doUpdate` and `postInit` require the status to exist, since the source would raise a NullPointerException there.
- Use of a disposed observable by a caller that keeps it is not modelled. The property never returns its observables.

## Findings

| source | as written | input that shows it | evidently intended | confidence | as-written member | corrected member |
|---|---|---|---|---|---|---|
| bundles/org.eclipse.core.databinding/src/org/eclipse/core/databinding/ListBinding.java:195-200 | With `useMoveAndReplace`, `handleReplace` passes `newElement` to `doReplace` unconverted. `handleAdd`, and the remove-then-add fallback, both convert. | converter x ↦ x + 1, destination [0], entry Replace(0, 0, 5): the result is [5] with `useMoveAndReplace` and [6] without it | convert `newElement` before `doReplace`, as `handleAdd` does before `doAdd` | medium; not executed | `ListBindings.ReplaceSkipsConverterAsWritten` | `ListBindings.ReplaceModesAgree` |

The as-written visitor is `ListBindings.VisitAsWritten`. The corrected one,
`ListBindings.Visit` with `ReplaceStep`, is the one the class uses.
