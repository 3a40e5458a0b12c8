/** What each registry operation does to the store it loads
    (src/context/service.rs), as functions on the store value. A mutator
    yields `Ok(next)` with the store it writes back, or the error it returns
    before writing anything. */
module ContextSpec {
  import opened ContextModel
  import opened AliasOrder

  /** `after` agrees with `before` on every key of `keys`. */
  predicate SameOn(before: map<string, Context>, after: map<string, Context>, keys: set<string>)
  {
    forall k :: k in keys ==> k in before && k in after && after[k] == before[k]
  }

  /** The store is written back exactly when the operation succeeds. */
  predicate Persisted(before: Snapshot, outcome: Result<Snapshot>, r: Result<()>, after: Snapshot)
  {
    match outcome
    case Ok(next) => r == Ok(()) && after == next
    case Err(e) => r == Err(e) && after == before
  }

  function Save(s: Snapshot, ctx: Context): (r: Result<Snapshot>)
    ensures r.Err? <==> ctx.alias in s.contexts
    ensures r.Err? ==> r.error == DuplicateAlias(ctx.alias)
    ensures r.Ok? ==> r.value.contexts.Keys == s.contexts.Keys + {ctx.alias}
    ensures r.Ok? ==> r.value.contexts[ctx.alias] == ctx
    ensures r.Ok? ==> SameOn(s.contexts, r.value.contexts, s.contexts.Keys)
    ensures r.Ok? ==> r.value.current == s.current
    ensures r.Ok? && Valid(s) ==> Valid(r.value)
  {
    if ctx.alias in s.contexts then Err(DuplicateAlias(ctx.alias))
    else Ok(s.(contexts := s.contexts[ctx.alias := ctx]))
  }

  function Get(s: Snapshot, alias: string): (r: Result<Context>)
    ensures r.Ok? <==> alias in s.contexts
    ensures r.Ok? ==> r.value == s.contexts[alias]
    ensures r.Err? ==> r.error == UnknownAlias(alias)
    ensures r.Ok? && Valid(s) ==> r.value.alias == alias
  {
    if alias in s.contexts then Ok(s.contexts[alias]) else Err(UnknownAlias(alias))
  }

  function Set(s: Snapshot, alias: string): (r: Result<Snapshot>)
    ensures r.Err? <==> alias !in s.contexts
    ensures r.Err? ==> r.error == UnknownAlias(alias)
    ensures r.Ok? ==> r.value.current == Some(alias) && r.value.contexts == s.contexts
    ensures r.Ok? && Valid(s) ==> Valid(r.value)
  {
    if alias !in s.contexts then Err(UnknownAlias(alias))
    else Ok(s.(current := Some(alias)))
  }

  function Current(s: Snapshot): (r: Result<Option<Context>>)
    ensures r == Ok(None) <==> s.current == None
    ensures r.Err? <==> s.current.Some? && s.current.value !in s.contexts
    ensures r.Err? ==> r.error == CurrentContextMissing(s.current.value)
    ensures r.Ok? && r.value.Some? ==>
              s.current.Some? && s.current.value in s.contexts && r.value.value == s.contexts[s.current.value]
    ensures Valid(s) ==> r.Ok?
  {
    match s.current
    case None => Ok(None)
    case Some(alias) =>
      if alias in s.contexts then Ok(Some(s.contexts[alias]))
      else Err(CurrentContextMissing(alias))
  }

  function Update(s: Snapshot, original: string, ctx: Context): (r: Result<Snapshot>)
    ensures r.Ok? <==> original in s.contexts && (ctx.alias == original || ctx.alias !in s.contexts)
    ensures original !in s.contexts ==> r == Err(UnknownAlias(original))
    ensures original in s.contexts && ctx.alias != original && ctx.alias in s.contexts ==>
              r == Err(DuplicateAlias(ctx.alias))
    ensures r.Ok? ==> r.value.contexts.Keys == s.contexts.Keys - {original} + {ctx.alias}
    ensures r.Ok? ==> r.value.contexts[ctx.alias] == ctx
    ensures r.Ok? ==> SameOn(s.contexts, r.value.contexts, s.contexts.Keys - {original, ctx.alias})
    ensures r.Ok? && s.current == Some(original) ==> r.value.current == Some(ctx.alias)
    ensures r.Ok? && s.current != Some(original) ==> r.value.current == s.current
    ensures r.Ok? && Valid(s) ==> Valid(r.value)
  {
    if original !in s.contexts then Err(UnknownAlias(original))
    else if original != ctx.alias && ctx.alias in s.contexts then Err(DuplicateAlias(ctx.alias))
    else
      var wasCurrent := s.current == Some(original);
      var contexts := (s.contexts - {original})[ctx.alias := ctx];
      Ok(Snapshot(if wasCurrent then Some(ctx.alias) else s.current, contexts))
  }

  function Rename(s: Snapshot, original: string, newAlias: string): (r: Result<Snapshot>)
    ensures r.Ok? <==> original == newAlias || (original in s.contexts && newAlias !in s.contexts)
    ensures original == newAlias ==> r == Ok(s)
    ensures original != newAlias && original !in s.contexts ==> r == Err(UnknownAlias(original))
    ensures original != newAlias && original in s.contexts && newAlias in s.contexts ==>
              r == Err(DuplicateAlias(newAlias))
    ensures r.Ok? && original != newAlias ==>
              && original in s.contexts
              && r.value.contexts.Keys == s.contexts.Keys - {original} + {newAlias}
              && r.value.contexts[newAlias] == s.contexts[original].(alias := newAlias)
              && SameOn(s.contexts, r.value.contexts, s.contexts.Keys - {original})
    ensures r.Ok? && original != newAlias && s.current == Some(original) ==> r.value.current == Some(newAlias)
    ensures r.Ok? && s.current != Some(original) ==> r.value.current == s.current
    ensures r.Ok? && Valid(s) ==> Valid(r.value)
  {
    if original == newAlias then Ok(s)
    else if original !in s.contexts then Err(UnknownAlias(original))
    else
      // The source removes the entry before the duplicate check; the removal
      // is never written back when the check fails.
      var ctx := s.contexts[original];
      var rest := s.contexts - {original};
      if newAlias in rest then Err(DuplicateAlias(newAlias))
      else
        var current := if s.current == Some(original) then Some(newAlias) else s.current;
        Ok(Snapshot(current, rest[newAlias := ctx.(alias := newAlias)]))
  }

  function Clone(s: Snapshot, source: string, newAlias: string): (r: Result<Snapshot>)
    ensures r.Ok? <==> source in s.contexts && newAlias !in s.contexts
    ensures source !in s.contexts ==> r == Err(UnknownAlias(source))
    ensures source in s.contexts && newAlias in s.contexts ==> r == Err(DuplicateAlias(newAlias))
    ensures r.Ok? ==> r.value.contexts.Keys == s.contexts.Keys + {newAlias}
    ensures r.Ok? ==> r.value.contexts[newAlias] == s.contexts[source].(alias := newAlias)
    ensures r.Ok? ==> SameOn(s.contexts, r.value.contexts, s.contexts.Keys)
    ensures r.Ok? ==> r.value.current == s.current
    ensures r.Ok? && Valid(s) ==> Valid(r.value)
  {
    if source !in s.contexts then Err(UnknownAlias(source))
    else if newAlias in s.contexts then Err(DuplicateAlias(newAlias))
    else Ok(s.(contexts := s.contexts[newAlias := s.contexts[source].(alias := newAlias)]))
  }

  function Delete(s: Snapshot, alias: string): (r: Result<Snapshot>)
    ensures r.Err? <==> alias !in s.contexts
    ensures r.Err? ==> r.error == UnknownAlias(alias)
    ensures r.Ok? ==> r.value.contexts.Keys == s.contexts.Keys - {alias}
    ensures r.Ok? ==> SameOn(s.contexts, r.value.contexts, s.contexts.Keys - {alias})
    ensures r.Ok? && s.current == Some(alias) ==> r.value.current == None
    ensures r.Ok? && s.current != Some(alias) ==> r.value.current == s.current
    ensures r.Ok? && Valid(s) ==> Valid(r.value)
  {
    if alias !in s.contexts then Err(UnknownAlias(alias))
    else
      var current := if s.current == Some(alias) then None else s.current;
      Ok(Snapshot(current, s.contexts - {alias}))
  }

  /** One row of `list`: the context stored under `k`, flagged when its alias
      is the current one. */
  function Entry(s: Snapshot, k: string): (row: (Context, bool))
    requires k in s.contexts
    ensures row.0 in s.contexts.Values
    ensures row.1 <==> s.current == Some(row.0.alias)
  {
    (s.contexts[k], s.current == Some(s.contexts[k].alias))
  }

  /** `entries` are the rows of the keys `order`, position by position. */
  ghost predicate ListedAs(s: Snapshot, entries: seq<(Context, bool)>, order: seq<string>)
  {
    && |entries| == |order|
    && forall i :: 0 <= i < |order| ==> order[i] in s.contexts && entries[i] == Entry(s, order[i])
  }

  /** `order` names every key of `keys` exactly once, and nothing else. */
  ghost predicate Enumerates(order: seq<string>, keys: set<string>)
  {
    forall k :: multiset(order)[k] == if k in keys then 1 else 0
  }

  predicate SortedByAlias(entries: seq<(Context, bool)>)
  {
    forall i, j :: 0 <= i < j < |entries| ==> Leq(entries[i].0.alias, entries[j].0.alias)
  }

  /** What `list` returns: one row per stored key, in ascending alias order. */
  ghost predicate IsListing(s: Snapshot, entries: seq<(Context, bool)>, order: seq<string>)
  {
    && ListedAs(s, entries, order)
    && Enumerates(order, s.contexts.Keys)
    && |entries| == |s.contexts|
    && SortedByAlias(entries)
  }
}
