/** How the registry operations relate to one another, and what a listing
    of a well-formed store looks like. */
module ContextLaws {
  import opened ContextModel
  import opened AliasOrder
  import opened ContextSpec

  /** After `set(a)` succeeds, `current()` yields the context `get(a)` yields. */
  lemma SetThenCurrent(s: Snapshot, alias: string)
    requires Set(s, alias).Ok?
    ensures Current(Set(s, alias).value) == Ok(Some(Get(s, alias).value))
  {
  }

  /** `delete` undoes a successful `save`. */
  lemma SaveThenDelete(s: Snapshot, ctx: Context)
    requires Valid(s) && Save(s, ctx).Ok?
    ensures Delete(Save(s, ctx).value, ctx.alias) == Ok(s)
  {
    assert s.contexts[ctx.alias := ctx] - {ctx.alias} == s.contexts;
  }

  /** On a well-formed store, saving a deleted context back restores the
      store, unless the deletion cleared the current alias. */
  lemma DeleteThenSave(s: Snapshot, alias: string)
    requires Valid(s) && alias in s.contexts && s.current != Some(alias)
    ensures Save(Delete(s, alias).value, s.contexts[alias]) == Ok(s)
  {
    assert (s.contexts - {alias})[alias := s.contexts[alias]] == s.contexts;
  }

  /** `delete` of the new alias undoes a successful `clone`. */
  lemma CloneThenDelete(s: Snapshot, source: string, newAlias: string)
    requires Valid(s) && Clone(s, source, newAlias).Ok?
    ensures Delete(Clone(s, source, newAlias).value, newAlias) == Ok(s)
  {
    var cloned := s.contexts[source].(alias := newAlias);
    assert s.contexts[newAlias := cloned] - {newAlias} == s.contexts;
  }

  /** Renaming back undoes a rename, current pointer included. */
  lemma RenameRoundTrip(s: Snapshot, original: string, newAlias: string)
    requires Valid(s) && Rename(s, original, newAlias).Ok?
    ensures Rename(Rename(s, original, newAlias).value, newAlias, original) == Ok(s)
  {
    if original != newAlias {
      var ctx := s.contexts[original];
      var moved := (s.contexts - {original})[newAlias := ctx.(alias := newAlias)];
      assert ctx.(alias := newAlias).(alias := original) == ctx;
      assert (moved - {newAlias})[original := ctx] == s.contexts;
    }
  }

  /** A rename to a different alias is an update whose new context is the
      old one under the new alias. */
  lemma RenameIsUpdate(s: Snapshot, original: string, newAlias: string)
    requires original != newAlias && original in s.contexts
    ensures Rename(s, original, newAlias) == Update(s, original, s.contexts[original].(alias := newAlias))
  {
  }

  /** After a successful update the new context is found under its alias,
      and the original alias is gone unless it was kept. */
  lemma UpdateThenGet(s: Snapshot, original: string, ctx: Context)
    requires Update(s, original, ctx).Ok?
    ensures Get(Update(s, original, ctx).value, ctx.alias) == Ok(ctx)
    ensures original != ctx.alias ==> Get(Update(s, original, ctx).value, original) == Err(UnknownAlias(original))
  {
  }

  /** Updating a context with itself changes nothing. */
  lemma UpdateWithSameIsNoOp(s: Snapshot, alias: string)
    requires Valid(s) && alias in s.contexts
    ensures Update(s, alias, s.contexts[alias]) == Ok(s)
  {
    assert (s.contexts - {alias})[alias := s.contexts[alias]] == s.contexts;
  }

  /** A value at two positions is counted at least twice. */
  lemma RepeatCounted(order: seq<string>, i: int, j: int)
    requires 0 <= i < j < |order|
    ensures order[i] == order[j] ==> multiset(order)[order[i]] >= 2
  {
    assert order == order[..j] + order[j..];
    assert order[..j][i] == order[i];
    assert order[j..][0] == order[j];
  }

  /** No key occurs twice in a sequence that names each key at most once. */
  lemma EnumerationDistinct(order: seq<string>, keys: set<string>, i: int, j: int)
    requires Enumerates(order, keys) && 0 <= i < j < |order|
    ensures order[i] != order[j]
  {
    RepeatCounted(order, i, j);
  }

  /** Every key a listing visits is a stored key, and every stored key is visited. */
  lemma EnumeratedKeys(order: seq<string>, keys: set<string>)
    requires Enumerates(order, keys)
    ensures forall k :: k in order <==> k in keys
  {
    forall k
      ensures k in order <==> k in keys
    {
      assert k in order <==> k in multiset(order);
    }
  }

  /** On a well-formed store each row's alias is the key it came from. */
  lemma RowAliases(s: Snapshot, entries: seq<(Context, bool)>, order: seq<string>)
    requires KeysMatchAliases(s) && ListedAs(s, entries, order)
    ensures forall i :: 0 <= i < |entries| ==> entries[i].0.alias == order[i]
  {
  }

  /** On a well-formed store the keys of a listing are strictly ascending. */
  lemma ListingStrictlyAscending(s: Snapshot, entries: seq<(Context, bool)>, order: seq<string>)
    requires KeysMatchAliases(s) && IsListing(s, entries, order)
    ensures StrictlyAscending(order)
  {
    RowAliases(s, entries, order);
    forall i, j | 0 <= i < j < |order|
      ensures Less(order[i], order[j])
    {
      EnumerationDistinct(order, s.contexts.Keys, i, j);
      assert Leq(entries[i].0.alias, entries[j].0.alias);
    }
  }

  /** On a well-formed store at most one row of a listing is flagged. */
  lemma ListingFlagsAtMostOne(s: Snapshot, entries: seq<(Context, bool)>, order: seq<string>, i: int, j: int)
    requires KeysMatchAliases(s) && ListedAs(s, entries, order) && Enumerates(order, s.contexts.Keys)
    requires 0 <= i < |entries| && 0 <= j < |entries| && entries[i].1 && entries[j].1
    ensures i == j
  {
    RowAliases(s, entries, order);
    if i < j {
      EnumerationDistinct(order, s.contexts.Keys, i, j);
    } else if j < i {
      EnumerationDistinct(order, s.contexts.Keys, j, i);
    }
  }

  /** On a well-formed store the listing is strictly ascending by alias,
      names every stored alias exactly once, and flags exactly the current
      one. */
  lemma ListingOfValidStore(s: Snapshot, entries: seq<(Context, bool)>, order: seq<string>)
    requires Valid(s) && IsListing(s, entries, order)
    ensures forall i :: 0 <= i < |entries| ==> entries[i].0.alias == order[i]
    ensures StrictlyAscending(order)
    ensures forall k :: k in order <==> k in s.contexts
    ensures forall i :: 0 <= i < |entries| ==> (entries[i].1 <==> s.current == Some(order[i]))
    ensures forall i, j :: 0 <= i < |entries| && 0 <= j < |entries| && entries[i].1 && entries[j].1 ==> i == j
  {
    RowAliases(s, entries, order);
    ListingStrictlyAscending(s, entries, order);
    EnumeratedKeys(order, s.contexts.Keys);
    forall i, j | 0 <= i < |entries| && 0 <= j < |entries| && entries[i].1 && entries[j].1
      ensures i == j
    {
      ListingFlagsAtMostOne(s, entries, order, i, j);
    }
  }

  /** On a well-formed store the listing does not depend on the order in
      which the keys were visited. */
  lemma ListingUnique(s: Snapshot, e1: seq<(Context, bool)>, o1: seq<string>, e2: seq<(Context, bool)>, o2: seq<string>)
    requires KeysMatchAliases(s) && IsListing(s, e1, o1) && IsListing(s, e2, o2)
    ensures e1 == e2
  {
    ListingStrictlyAscending(s, e1, o1);
    ListingStrictlyAscending(s, e2, o2);
    EnumeratedKeys(o1, s.contexts.Keys);
    EnumeratedKeys(o2, s.contexts.Keys);
    AscendingUnique(o1, o2);
    forall i | 0 <= i < |e1|
      ensures e1[i] == e2[i]
    {
      assert e1[i] == Entry(s, o1[i]);
    }
  }
}
