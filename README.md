# azac context registry, in Dafny

azac is a command-line tool for Azure App Configuration. It keeps a
registry of named *contexts*. Each context is a scope: subscription, App
Configuration name, base key prefix, key separator and label, saved under an
alias. The registry also keeps an optional *current* alias. This project
models that registry (`src/context/service.rs`) and proves what its
operations do to it:

- `save`: adds a new context, refusing an alias that is already taken.
- `get`: looks a context up by alias.
- `set`: selects the current context.
- `current`: returns the current context.
- `list`: returns every context, sorted by alias, each with a current flag.
- `update`: replaces a context, possibly under a new alias.
- `rename`: moves a context to a new alias.
- `clone`: copies a context under a new alias.
- `delete`: removes a context and clears a current alias that pointed to it.

In the source, every operation except a rename to the same alias loads the
whole store from the contexts file,
works on that copy, and writes it back only when it succeeds. In the model,
the fields of the class `ContextService.ContextStore` (`current`,
`contexts`) stand for the file. `View()` plays the role of loading it, and
`Write` plays the role of writing it.

Layout:

- `context_model.dfy` (module `ContextModel`): the `Context` record, the
  registry's errors, `Result`, and the store value `Snapshot`. It also holds
  the two store invariants: (a) every context is stored under its own alias,
  and (b) the current alias, when set, is a stored key.
- `alias_order.dfy` (module `AliasOrder`): the order `list` sorts by, with
  its order laws.
- `context_spec.dfy` (module `ContextSpec`): one function per operation on a
  `Snapshot`. A mutator returns `Ok(store to write)` or the error it reports.
  The contracts state the error cases, the new contents and current pointer,
  and that invariants (a) and (b) are preserved. The same module says what a
  listing is (`IsListing`).
- `context_service.dfy` (module `ContextService`): the class with one
  imperative method per operation. Each mutator is proved to write back
  exactly the specification's store on success and to leave the state
  unchanged on every error. `List` collects the rows from the map and sorts
  them in place in an array.
- `context_laws.dfy` (module `ContextLaws`): how the operations relate. It
  covers inverses (save/delete, clone/delete, rename/rename back), rename as
  a special update, and set followed by current. It also shows that a
  listing of a well-formed store is strictly ascending, complete, flags at
  most one row, and does not depend on the map's iteration order.
- `context_history.dfy` (module `ContextHistory`): any sequence of
  operations starting from an empty contexts file keeps both invariants. So
  `current` never reports `CurrentContextMissing` on such a store.

Modelling decisions:

- The methods do not require the invariants. A contexts file may hold
  anything, for example a current alias whose context was removed by hand.
  The source handles that case with `CurrentContextMissing`, and so does the
  model. Preservation is stated as `old(Valid()) ==> Valid()`.
- `rename` in the source removes the entry from its in-memory copy before
  the duplicate check. When the check fails, that copy is never written
  back. The model does the same on its local copy, and the store is
  unchanged on that error.
- Rust orders `String`s byte by byte over UTF-8, which is the same as code
  point order. `AliasOrder.Less` compares `char`s (Unicode scalar values)
  lexicographically, with a proper prefix first.
- The `label` field of `Context` is named `keyLabel`, because `label` is a
  reserved word in Dafny.

## Model

| member | source | states |
|---|---|---|
| ContextSpec.Save | src/context/service.rs:4-13 | fails with DuplicateAlias exactly when the alias is taken; otherwise the keys gain exactly ctx.alias, mapped to ctx, every other entry and the current alias are unchanged, and invariants (a) and (b) are kept |
| ContextSpec.Get | src/context/service.rs:15-23 | succeeds exactly when the alias is a key and returns the stored context, else UnknownAlias; on a well-formed store the context's alias is the key |
| ContextSpec.Set | src/context/service.rs:25-34 | fails with UnknownAlias exactly when the alias is not a key; otherwise current becomes that alias and the contexts are untouched |
| ContextSpec.Current | src/context/service.rs:36-50 | Ok(None) exactly when no alias is selected; CurrentContextMissing exactly when the selected alias is not a key; otherwise the stored context; never fails on a well-formed store |
| ContextSpec.Update | src/context/service.rs:71-93 | UnknownAlias when the original is absent; DuplicateAlias only when the new alias differs and is taken; on success the original key is replaced by the new alias mapped to the new context, other keys unchanged, current follows the entry, invariants kept |
| ContextSpec.Rename | src/context/service.rs:95-119 | a no-op success when both aliases are equal (even for an unknown alias); otherwise UnknownAlias or DuplicateAlias with nothing written; on success the context moves to the new key with only its alias changed, current is redirected, invariants kept |
| ContextSpec.Clone | src/context/service.rs:121-139 | UnknownAlias when the source is absent, DuplicateAlias when the new alias is taken; on success adds the source's copy under the new alias, leaving every existing entry and current unchanged |
| ContextSpec.Delete | src/context/service.rs:141-153 | UnknownAlias exactly when the alias is absent; on success removes only that key and clears current exactly when it named it |
| ContextService.ContextStore.constructor | src/context/store.rs:12-18 | an empty or missing contexts file loads as the empty, well-formed store |
| ContextService.ContextStore.Loaded | src/context/store.rs:12-21 | the registry starts from whatever store the file holds |
| ContextService.ContextStore.Write | src/context/store.rs:23-34 | writing replaces the whole stored state with the given store |
| ContextService.ContextStore.Save | src/context/service.rs:4-13 | writes back the store of ContextSpec.Save on success, leaves the state unchanged on error, keeps the class invariant |
| ContextService.ContextStore.Get | src/context/service.rs:15-23 | returns what ContextSpec.Get states for the current state |
| ContextService.ContextStore.Set | src/context/service.rs:25-34 | writes back the store of ContextSpec.Set on success, leaves the state unchanged on error, keeps the class invariant |
| ContextService.ContextStore.Current | src/context/service.rs:36-50 | returns what ContextSpec.Current states for the current state |
| ContextService.ContextStore.List | src/context/service.rs:52-69 | returns as many rows as stored keys, one per key (each key named exactly once), each row a stored context flagged iff its alias is the current alias, in ascending alias order |
| ContextService.ContextStore.Update | src/context/service.rs:71-93 | writes back the store of ContextSpec.Update on success, leaves the state unchanged on error, keeps the class invariant |
| ContextService.ContextStore.Rename | src/context/service.rs:95-119 | writes back the store of ContextSpec.Rename on success; the in-memory removal before the duplicate check is never written back |
| ContextService.ContextStore.Clone | src/context/service.rs:121-139 | writes back the store of ContextSpec.Clone on success, leaves the state unchanged on error, keeps the class invariant |
| ContextService.ContextStore.Delete | src/context/service.rs:141-153 | writes back the store of ContextSpec.Delete on success, leaves the state unchanged on error, keeps the class invariant |
| ContextService.SortByAlias | src/context/service.rs:66 | sorts the rows in place into alias order, permuting the rows' keys alongside so every row still matches its key |
| ContextService.InsertRow | src/context/service.rs:66 | extends the sorted prefix of the rows by one, permuting rows and keys together |
| ContextService.SwapWithPrevious | src/context/service.rs:66 | exchanges two adjacent rows and their keys, leaving the rest |
| AliasOrder.LessIrreflexive | src/context/service.rs:66 | no alias sorts before itself |
| AliasOrder.LessAsymmetric | src/context/service.rs:66 | two aliases never sort before each other |
| AliasOrder.LessTransitive | src/context/service.rs:66 | the alias order is transitive |
| AliasOrder.LessTotal | src/context/service.rs:66 | any two distinct aliases are ordered one way or the other |
| AliasOrder.LeqTransitive | src/context/service.rs:66 | the non-strict alias order is transitive |
| AliasOrder.LeqAntisymmetric | src/context/service.rs:66 | aliases that sort no later than each other are equal |
| AliasOrder.AscendingUnique | src/context/service.rs:66 | two strictly ascending sequences with the same aliases are equal |
| ContextLaws.SetThenCurrent | src/context/service.rs:25-50 | after a successful set(a), current() returns Some(get(a)) |
| ContextLaws.SaveThenDelete | src/context/service.rs:4-13 | on a well-formed store, deleting a just-saved alias restores the store |
| ContextLaws.DeleteThenSave | src/context/service.rs:141-153 | on a well-formed store, saving a deleted, non-current context back restores the store |
| ContextLaws.CloneThenDelete | src/context/service.rs:121-153 | on a well-formed store, deleting a clone restores the store |
| ContextLaws.RenameRoundTrip | src/context/service.rs:95-119 | on a well-formed store, renaming back after a successful rename restores the store, current included |
| ContextLaws.RenameIsUpdate | src/context/service.rs:71-119 | renaming a stored alias to a different one equals updating it with the same context under the new alias |
| ContextLaws.UpdateThenGet | src/context/service.rs:71-93 | after a successful update, get of the new alias returns the new context, and the original alias is gone when it changed |
| ContextLaws.UpdateWithSameIsNoOp | src/context/service.rs:71-93 | on a well-formed store, updating a context with itself changes nothing |
| ContextLaws.ListingOfValidStore | src/context/service.rs:52-69 | on a well-formed store the listing is strictly ascending by alias, names every stored alias exactly once, flags a row iff it is current, and flags at most one row |
| ContextLaws.ListingStrictlyAscending | src/context/service.rs:52-69 | when every context is stored under its own alias, the keys of a listing are strictly ascending |
| ContextLaws.ListingFlagsAtMostOne | src/context/service.rs:52-69 | when every context is stored under its own alias, at most one row of a listing is flagged current |
| ContextLaws.ListingUnique | src/context/service.rs:52-69 | when every context is stored under its own alias, every listing is the same, whatever order the map was visited in |
| ContextHistory.Step | src/context/service.rs:4-153 | one operation, written back only on success, keeps invariants (a) and (b) |
| ContextHistory.RunPreservesValid | src/context/service.rs:4-153 | any sequence of operations keeps invariants (a) and (b) |
| ContextHistory.CurrentNeverMissing | src/context/service.rs:36-50 | starting from an empty contexts file, current() never fails, whatever operations ran |

## Left out

- File persistence (`src/context/store.rs`): locating the configuration directory, reading and writing the file, and TOML (de)serialisation. The object's fields replace the file. The errors `MissingConfigDir`, `Io`, `Serialize` and `Deserialize` come only from that layer, so no operation in the model fails on load or write.
- Concurrent invocations of the tool racing on the same contexts file are not modelled; each operation runs alone.
- `HashMap` iteration order is not modelled: `List` visits the keys in an arbitrary order of its choosing. `ContextLaws.ListingUnique` shows that, on a well-formed store, the result does not depend on that order.
- Sorting algorithm: Rust's `sort_by` is a stable merge sort; the model sorts with a stable insertion sort. The contract gives the same result; allocation and running time are not modelled.
- The other parts of the repository are not part of this model: the YAML/JSON context and cache files (`src/context.rs`, `src/cache.rs`), calls to the `az` command (`src/azcli/`), interactive prompts (`src/prompt/`), and command-line dispatch and printing (`src/cmd/`, `src/main.rs`, `src/commands.rs`).
- The key-value commands in src/commands.rs (keys, import, export, Key Vault promote/demote) are `unimplemented!()` stubs and are not modelled.
