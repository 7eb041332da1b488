/** The history of a store, and the two orders it gives rise to: by last use and
    by last write. */
module Uses {

  /** A file written, with its modification time, or read. */
  datatype Use = Wrote(key: string, at: nat) | Read(key: string)

  /** When the key was last used, or -1. */
  ghost function LastUse(uses: seq<Use>, k: string): (i: int)
    ensures -1 <= i < |uses| && (i >= 0 ==> uses[i].key == k)
    ensures forall j :: i < j < |uses| ==> uses[j].key != k
  {
    if uses == [] then -1
    else if uses[|uses| - 1].key == k then |uses| - 1
    else LastUse(uses[..|uses| - 1], k)
  }

  /** When it was last written, or -1. */
  ghost function LastWrite(uses: seq<Use>, k: string): (i: int)
    ensures -1 <= i < |uses| && (i >= 0 ==> uses[i].key == k && uses[i].Wrote?)
    ensures forall j :: i < j < |uses| ==> uses[j] == Read(uses[j].key) || uses[j].key != k
  {
    if uses == [] then -1
    else if uses[|uses| - 1].key == k && uses[|uses| - 1].Wrote? then |uses| - 1
    else LastWrite(uses[..|uses| - 1], k)
  }

  lemma Later(uses: seq<Use>, u: Use, k: string)
    ensures LastUse(uses + [u], k) == if u.key == k then |uses| else LastUse(uses, k)
    ensures LastWrite(uses + [u], k) == if u.key == k && u.Wrote? then |uses| else LastWrite(uses, k)
  {
    assert (uses + [u])[..|uses|] == uses;
  }

  /** Later writes have later times, all of them before `now`. */
  ghost predicate Rising(uses: seq<Use>, now: nat) {
    && (forall i :: 0 <= i < |uses| && uses[i].Wrote? ==> uses[i].at < now)
    && (forall i, j :: 0 <= i < j < |uses| && uses[i].Wrote? && uses[j].Wrote? ==> uses[i].at < uses[j].at)
  }

  /** The key j was read after the last use of k. */
  ghost predicate ReadSince(uses: seq<Use>, j: string, k: string) {
    exists i :: LastUse(uses, k) < i < |uses| && uses[i] == Read(j)
  }

  /** Of two keys the one written earlier is also the one used earlier, exactly
      unless it was read after the other's last use. */
  lemma OrdersAgree(uses: seq<Use>, j: string, k: string)
    requires 0 <= LastWrite(uses, j) < LastWrite(uses, k)
    ensures LastUse(uses, j) < LastUse(uses, k) <==> !ReadSince(uses, j, k)
  {
    var i := LastUse(uses, j);
    assert uses[LastWrite(uses, j)].key == j && uses[LastWrite(uses, k)].key == k;
    assert j != k && LastWrite(uses, k) <= LastUse(uses, k);
    if i >= LastUse(uses, k) {
      assert uses[i].key == j && uses[i] == Read(j);
    }
  }
}
