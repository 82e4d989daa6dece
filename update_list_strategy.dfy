/**
 * The parts of UpdateListStrategy and of the status types that a list
 * binding relies on: the update policy, the per-operation status, the
 * element converter and the four destination operations. The binding's own
 * use of them (mergeStatus, the policy gate of doUpdate) is in ListBindings.
 */
module UpdateListStrategy {
  import opened ListDiffs

  datatype Policy = Never | OnRequest | Update

  /** An IStatus: OK, an error reported by one operation, or a multi-status
      whose severity is the worst of its children's. */
  datatype Status = Ok | Error | Multi(children: seq<Status>)
  {
    predicate IsOk()
    {
      match this
      case Ok => true
      case Error => false
      case Multi(cs) => forall i :: 0 <= i < |cs| ==> cs[i].IsOk()
    }
  }

  /** Every status in `cs` is a failure. */
  predicate AllFailures(cs: seq<Status>)
  {
    forall i :: 0 <= i < |cs| ==> !cs[i].IsOk()
  }

  /** A strategy for one direction: its policy, whether it applies Move and
      Replace entries directly, its converter (None when conversion throws)
      and an oracle naming the destination calls that throw for a reason
      other than a bad index (an unmodifiable list, say). */
  datatype Strategy<!T> = Strategy(
    policy: Policy,
    useMoveAndReplace: bool,
    converter: T -> Option<T>,
    vetoes: Mutation<T> -> bool)

  /** The destination never throws except on a bad index. */
  ghost predicate Permissive<T(!new)>(st: Strategy<T>)
  {
    forall m :: !st.vetoes(m)
  }

  /** The destination accepts every add with an index in range. */
  ghost predicate AcceptsAdds<T(!new)>(st: Strategy<T>)
  {
    forall j, y :: !st.vetoes(Insert(j, y))
  }

  /** Conversion never throws. */
  ghost predicate TotalConverter<T(!new)>(st: Strategy<T>)
  {
    forall x :: st.converter(x).Some?
  }

  /** The converter is the identity, the default of UpdateListStrategy. */
  ghost predicate IdentityConverter<T(!new)>(st: Strategy<T>)
  {
    forall x :: st.converter(x) == Some(x)
  }

  datatype Performed<T> = Performed(status: Status, list: seq<T>)

  /** doAdd, doRemove, doMove and doReplace: perform the call on the
      destination; an exception is caught and reported as an error status,
      and the destination is then left as it was. */
  function Perform<T>(st: Strategy<T>, dest: seq<T>, m: Mutation<T>): (r: Performed<T>)
    ensures r.status.IsOk() <==> !st.vetoes(m) && InBounds(dest, m)
    ensures r.status.IsOk() ==> r.status == Ok && Mutate(dest, m) == Some(r.list)
    ensures !r.status.IsOk() ==> r.status == Error && r.list == dest
  {
    if st.vetoes(m) then Performed(Error, dest)
    else
      match Mutate(dest, m)
      case Some(t) => Performed(Ok, t)
      case None => Performed(Error, dest)
  }
}
