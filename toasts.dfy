/** The student dashboard's toast stack: an ordered list of transient
    messages, newest last. `pushToast` appends one; the close button and the
    5-second timer both remove the toast with a given id. */
module Toasts {
  import opened Common

  datatype Kind = Info | Success | Error

  /** The argument of `pushToast`: `{ type, title, message }`, where a
      missing `type` defaults to `"info"`. */
  datatype Notice = Notice(kind: Option<Kind>, title: string, message: string)

  datatype Toast = Toast(id: nat, kind: Kind, title: string, message: string)

  function Id(t: Toast): nat { t.id }

  predicate HasId(q: seq<Toast>, id: nat) {
    exists i :: 0 <= i < |q| && q[i].id == id
  }

  /** No two toasts in the stack share an id. */
  predicate UniqueIds(q: seq<Toast>) {
    UniqueKeys(q, Id)
  }

  /** The list update of `pushToast`: one toast at the end, its type
      defaulting to `Info`; the toasts already shown stay, in order. */
  function Push(q: seq<Toast>, id: nat, n: Notice): (r: seq<Toast>)
    ensures |r| == |q| + 1 && r[..|q|] == q
    ensures r[|q|].id == id && r[|q|].title == n.title && r[|q|].message == n.message
    ensures n.kind.None? ==> r[|q|].kind == Info
    ensures n.kind.Some? ==> r[|q|].kind == n.kind.value
  {
    q + [Toast(id, n.kind.GetOr(Info), n.title, n.message)]
  }

  /** The close button and the expiry timer: keep every toast whose id
      differs from `id`. */
  function Remove(q: seq<Toast>, id: nat): (r: seq<Toast>)
    ensures !HasId(r, id)
    ensures forall i :: 0 <= i < |r| ==> r[i] in q
  {
    Without(q, Id, id)
  }

  /** Removing an id that is not shown is a no-op. */
  lemma RemoveAbsent(q: seq<Toast>, id: nat)
    requires !HasId(q, id)
    ensures Remove(q, id) == q
  {
    WithoutAbsent(q, Id, id);
  }

  /** Removing an id that one toast carries takes out exactly that toast
      and leaves the others in order. */
  lemma RemoveOne(q: seq<Toast>, n: nat)
    requires UniqueIds(q) && n < |q|
    ensures Remove(q, q[n].id) == q[..n] + q[n + 1..]
  {
    WithoutSingle(q, Id, n);
  }

  /** Every toast with another id survives the removal. */
  lemma RemoveKeepsOthers(q: seq<Toast>, id: nat, t: Toast)
    requires t in q && t.id != id
    ensures t in Remove(q, id)
  {
    WithoutKeepsOthers(q, Id, id, t);
    assert multiset(q)[t] > 0;
  }

  /** A dismissed toast's timer firing later changes nothing. */
  lemma RemoveTwice(q: seq<Toast>, id: nat)
    ensures Remove(Remove(q, id), id) == Remove(q, id)
  {
    WithoutIdempotent(q, Id, id);
  }

  /** A pushed toast with a fresh id, once expired, leaves the stack as it
      was before the push. */
  lemma PushThenRemove(q: seq<Toast>, id: nat, n: Notice)
    requires !HasId(q, id)
    ensures Remove(Push(q, id, n), id) == q
  {
    var t := Toast(id, n.kind.GetOr(Info), n.title, n.message);
    WithoutConcat(q, [t], Id, id);
    WithoutAbsent(q, Id, id);
  }

  /** Removal never makes two toasts share an id. */
  lemma RemoveKeepsUnique(q: seq<Toast>, id: nat)
    requires UniqueIds(q)
    ensures UniqueIds(Remove(q, id))
  {
    WithoutKeepsUnique(q, Id, id);
  }
}
