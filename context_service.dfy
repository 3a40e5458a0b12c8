/** The context registry of src/context/service.rs. Every operation there
    loads the store, works on that copy, and writes it back only when it
    succeeds; here the object's own fields stand for the contexts file, so
    `View()` plays `load()` and `Write` plays `write()`. */
module ContextService {
  import opened ContextModel
  import opened AliasOrder
  import opened ContextSpec

  class ContextStore {
    var current: Option<string>
    var contexts: map<string, Context>

    function View(): Snapshot
      reads this
    {
      Snapshot(current, contexts)
    }

    /** Both class invariants: keys match aliases, current names a key. */
    predicate Valid()
      reads this
    {
      ContextModel.Valid(View())
    }

    /** The registry as an empty or missing contexts file loads it. */
    constructor ()
      ensures View() == Default && Valid()
    {
      current := None;
      contexts := map[];
    }

    /** The registry as a contexts file with arbitrary content loads it. */
    constructor Loaded(s: Snapshot)
      ensures View() == s
    {
      current := s.current;
      contexts := s.contexts;
    }

    method Write(store: Snapshot)
      modifies this
      ensures View() == store
    {
      current := store.current;
      contexts := store.contexts;
    }

    method Save(ctx: Context) returns (r: Result<()>)
      modifies this
      ensures Persisted(old(View()), ContextSpec.Save(old(View()), ctx), r, View())
      ensures old(Valid()) ==> Valid()
    {
      var store := View();
      if ctx.alias in store.contexts {
        return Err(DuplicateAlias(ctx.alias));
      }
      store := store.(contexts := store.contexts[ctx.alias := ctx]);
      Write(store);
      r := Ok(());
    }

    method Get(alias: string) returns (r: Result<Context>)
      ensures r == ContextSpec.Get(View(), alias)
    {
      var store := View();
      if alias in store.contexts {
        r := Ok(store.contexts[alias]);
      } else {
        r := Err(UnknownAlias(alias));
      }
    }

    method Set(alias: string) returns (r: Result<()>)
      modifies this
      ensures Persisted(old(View()), ContextSpec.Set(old(View()), alias), r, View())
      ensures old(Valid()) ==> Valid()
    {
      var store := View();
      if alias !in store.contexts {
        return Err(UnknownAlias(alias));
      }
      store := store.(current := Some(alias));
      Write(store);
      r := Ok(());
    }

    method Current() returns (r: Result<Option<Context>>)
      ensures r == ContextSpec.Current(View())
    {
      var store := View();
      if store.current == None {
        return Ok(None);
      }
      var alias := store.current.value;
      if alias !in store.contexts {
        return Err(CurrentContextMissing(alias));
      }
      r := Ok(Some(store.contexts[alias]));
    }

    /** The stored contexts, each with a flag saying whether it is the
        current one, sorted by alias. `order` is the key each row came from. */
    method List() returns (entries: seq<(Context, bool)>, ghost order: seq<string>)
      ensures |entries| == |contexts|
      ensures forall i :: 0 <= i < |entries| ==> entries[i].0 in contexts.Values
      ensures forall i :: 0 <= i < |entries| ==> (entries[i].1 <==> current == Some(entries[i].0.alias))
      ensures SortedByAlias(entries)
      ensures IsListing(View(), entries, order)
    {
      var store := View();
      var rest := store.contexts.Keys;
      var collected: seq<(Context, bool)> := [];
      order := [];
      while rest != {}
        invariant rest <= store.contexts.Keys
        invariant ListedAs(store, collected, order)
        invariant |order| + |rest| == |store.contexts|
        invariant forall k :: multiset(order)[k] == if k in store.contexts && k !in rest then 1 else 0
        decreases |rest|
      {
        var k :| k in rest;
        var ctx := store.contexts[k];
        var isCurrent := store.current == Some(ctx.alias);
        collected := collected + [(ctx, isCurrent)];
        order := order + [k];
        rest := rest - {k};
      }
      var a := new (Context, bool)[|collected|](i requires 0 <= i < |collected| => collected[i]);
      assert a[..] == collected;
      order := SortByAlias(a, store, order);
      entries := a[..];
    }

    method Update(original: string, ctx: Context) returns (r: Result<()>)
      modifies this
      ensures Persisted(old(View()), ContextSpec.Update(old(View()), original, ctx), r, View())
      ensures old(Valid()) ==> Valid()
    {
      var store := View();
      if original !in store.contexts {
        return Err(UnknownAlias(original));
      }
      if original != ctx.alias && ctx.alias in store.contexts {
        return Err(DuplicateAlias(ctx.alias));
      }
      var wasCurrent := store.current == Some(original);
      var newAlias := ctx.alias;
      store := store.(contexts := store.contexts - {original});
      store := store.(contexts := store.contexts[newAlias := ctx]);
      if wasCurrent {
        store := store.(current := Some(newAlias));
      }
      Write(store);
      r := Ok(());
    }

    method Rename(original: string, newAlias: string) returns (r: Result<()>)
      modifies this
      ensures Persisted(old(View()), ContextSpec.Rename(old(View()), original, newAlias), r, View())
      ensures old(Valid()) ==> Valid()
    {
      if original == newAlias {
        return Ok(());
      }
      var store := View();
      if original !in store.contexts {
        return Err(UnknownAlias(original));
      }
      var ctx := store.contexts[original];
      store := store.(contexts := store.contexts - {original});
      if newAlias in store.contexts {
        return Err(DuplicateAlias(newAlias));
      }
      ctx := ctx.(alias := newAlias);
      store := store.(contexts := store.contexts[newAlias := ctx]);
      if store.current == Some(original) {
        store := store.(current := Some(newAlias));
      }
      Write(store);
      r := Ok(());
    }

    method Clone(source: string, newAlias: string) returns (r: Result<()>)
      modifies this
      ensures Persisted(old(View()), ContextSpec.Clone(old(View()), source, newAlias), r, View())
      ensures old(Valid()) ==> Valid()
    {
      var store := View();
      if source !in store.contexts {
        return Err(UnknownAlias(source));
      }
      var ctx := store.contexts[source];
      if newAlias in store.contexts {
        return Err(DuplicateAlias(newAlias));
      }
      var cloned := ctx.(alias := newAlias);
      store := store.(contexts := store.contexts[newAlias := cloned]);
      Write(store);
      r := Ok(());
    }

    method Delete(alias: string) returns (r: Result<()>)
      modifies this
      ensures Persisted(old(View()), ContextSpec.Delete(old(View()), alias), r, View())
      ensures old(Valid()) ==> Valid()
    {
      var store := View();
      if alias !in store.contexts {
        return Err(UnknownAlias(alias));
      }
      store := store.(contexts := store.contexts - {alias});
      if store.current == Some(alias) {
        store := store.(current := None);
      }
      Write(store);
      r := Ok(());
    }
  }

  /** Sorts the rows of `list` in place by alias, stably, by insertion. The
      keys the rows came from are permuted alongside, in `sorted`. */
  method SortByAlias(a: array<(Context, bool)>, ghost s: Snapshot, ghost order: seq<string>)
    returns (ghost sorted: seq<string>)
    requires ListedAs(s, a[..], order)
    modifies a
    ensures ListedAs(s, a[..], sorted) && multiset(sorted) == multiset(order)
    ensures SortedByAlias(a[..])
  {
    sorted := order;
    if a.Length == 0 {
      return;
    }
    var i := 1;
    while i < a.Length
      invariant 1 <= i <= a.Length
      invariant ListedAs(s, a[..], sorted) && multiset(sorted) == multiset(order)
      invariant SortedPrefix(a[..], i)
    {
      sorted := InsertRow(a, i, s, sorted);
      i := i + 1;
    }
  }

  /** The first `n` rows are in alias order. */
  ghost predicate SortedPrefix(rows: seq<(Context, bool)>, n: int)
    requires 0 <= n <= |rows|
  {
    forall p, q :: 0 <= p < q < n ==> Leq(rows[p].0.alias, rows[q].0.alias)
  }

  /** Moves row `i` leftwards past every row with a greater alias, so that
      the first `i + 1` rows are in alias order. */
  method InsertRow(a: array<(Context, bool)>, i: int, ghost s: Snapshot, ghost keys: seq<string>)
    returns (ghost keys': seq<string>)
    requires 0 < i < a.Length
    requires ListedAs(s, a[..], keys) && SortedPrefix(a[..], i)
    modifies a
    ensures ListedAs(s, a[..], keys') && multiset(keys') == multiset(keys)
    ensures SortedPrefix(a[..], i + 1)
  {
    keys' := keys;
    var j := i;
    while j > 0 && Less(a[j].0.alias, a[j - 1].0.alias)
      invariant 0 <= j <= i
      invariant ListedAs(s, a[..], keys') && multiset(keys') == multiset(keys)
      invariant forall p, q :: 0 <= p < q <= i && p != j && q != j ==> Leq(a[p].0.alias, a[q].0.alias)
      invariant forall q :: j < q <= i ==> Leq(a[j].0.alias, a[q].0.alias)
    {
      keys' := SwapWithPrevious(a, j, s, keys');
      j := j - 1;
    }
    if j > 0 {
      LessTotal(a[j - 1].0.alias, a[j].0.alias);
      forall p | 0 <= p < j - 1
        ensures Leq(a[p].0.alias, a[j].0.alias)
      {
        LeqTransitive(a[p].0.alias, a[j - 1].0.alias, a[j].0.alias);
      }
    }
  }

  /** Exchanges rows `j - 1` and `j`, and their keys. */
  method SwapWithPrevious(a: array<(Context, bool)>, j: int, ghost s: Snapshot, ghost keys: seq<string>)
    returns (ghost keys': seq<string>)
    requires 0 < j < a.Length
    requires ListedAs(s, a[..], keys)
    modifies a
    ensures a[..] == old(a[..])[j - 1 := old(a[j])][j := old(a[j - 1])]
    ensures ListedAs(s, a[..], keys') && multiset(keys') == multiset(keys)
  {
    a[j - 1], a[j] := a[j], a[j - 1];
    keys' := keys[j - 1 := keys[j]][j := keys[j - 1]];
  }
}
