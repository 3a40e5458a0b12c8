/** The records of the context registry: a named scope, the errors the
    registry reports, and the store value that is read from and written back
    to the contexts file (src/context/model.rs, src/context/error.rs). */
module ContextModel {

  datatype Option<T> = None | Some(value: T)

  /** A named scope: Azure subscription, App Configuration name, base key
      prefix, key separator and label, saved under its alias. */
  datatype Context = Context(
    alias: string,
    sub: string,
    name: string,
    base: string,
    separator: string,
    keyLabel: string)  // `label` in the source; `label` is reserved in Dafny

  /** The errors the registry raises itself; the file-system and TOML errors
      belong to the persistence layer, which is not modelled. */
  datatype ContextError =
    | DuplicateAlias(alias: string)
    | UnknownAlias(alias: string)
    | CurrentContextMissing(alias: string)

  datatype Result<T> = Ok(value: T) | Err(error: ContextError)

  /** The whole persisted store: the selected alias, if any, and the contexts
      keyed by alias. */
  datatype Snapshot = Snapshot(current: Option<string>, contexts: map<string, Context>)

  /** The store that an empty or missing contexts file loads as. */
  const Default: Snapshot := Snapshot(None, map[])

  /** Invariant (a): every context is stored under its own alias. */
  predicate KeysMatchAliases(s: Snapshot)
  {
    forall k :: k in s.contexts ==> s.contexts[k].alias == k
  }

  /** Invariant (b): the current alias, when set, names a stored context. */
  predicate CurrentIsKey(s: Snapshot)
  {
    s.current.Some? ==> s.current.value in s.contexts
  }

  predicate Valid(s: Snapshot)
  {
    KeysMatchAliases(s) && CurrentIsKey(s)
  }
}
