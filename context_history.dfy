/** A run of the registry's state-changing operations, one after another,
    each writing the store back only when it succeeds. */
module ContextHistory {
  import opened ContextModel
  import ContextSpec

  datatype Command =
    | SaveCmd(ctx: Context)
    | SetCmd(alias: string)
    | UpdateCmd(original: string, updated: Context)
    | RenameCmd(from: string, to: string)
    | CloneCmd(source: string, newAlias: string)
    | DeleteCmd(target: string)

  function Apply(s: Snapshot, c: Command): (r: Result<Snapshot>)
    ensures r.Ok? && Valid(s) ==> Valid(r.value)
  {
    match c
    case SaveCmd(ctx) => ContextSpec.Save(s, ctx)
    case SetCmd(alias) => ContextSpec.Set(s, alias)
    case UpdateCmd(original, updated) => ContextSpec.Update(s, original, updated)
    case RenameCmd(from, to) => ContextSpec.Rename(s, from, to)
    case CloneCmd(source, newAlias) => ContextSpec.Clone(s, source, newAlias)
    case DeleteCmd(target) => ContextSpec.Delete(s, target)
  }

  /** The store on disk after one command: the new store, or the old one
      when the command failed. */
  function Step(s: Snapshot, c: Command): (t: Snapshot)
    ensures Valid(s) ==> Valid(t)
  {
    match Apply(s, c)
    case Ok(next) => next
    case Err(_) => s
  }

  function Run(s: Snapshot, cs: seq<Command>): (t: Snapshot)
    decreases |cs|
  {
    if |cs| == 0 then s else Run(Step(s, cs[0]), cs[1..])
  }

  /** Every run of commands keeps both store invariants. */
  lemma {:induction false} RunPreservesValid(s: Snapshot, cs: seq<Command>)
    requires Valid(s)
    ensures Valid(Run(s, cs))
    decreases |cs|
  {
    if |cs| > 0 {
      RunPreservesValid(Step(s, cs[0]), cs[1..]);
    }
  }

  /** A store built only by these commands, starting from an empty contexts
      file, never reports CurrentContextMissing. */
  lemma CurrentNeverMissing(cs: seq<Command>)
    ensures ContextSpec.Current(Run(Default, cs)).Ok?
  {
    RunPreservesValid(Default, cs);
  }
}
