/** Small datatypes shared by every component. */
module Common {
  datatype Option<+T> = None | Some(value: T)

  /** The elements of a list are pairwise different. */
  ghost predicate Distinct<T>(s: seq<T>)
  {
    forall i, j | 0 <= i < j < |s| :: s[i] != s[j]
  }

  /** `piece` stands at offset p of s. */
  ghost predicate Occurs<T>(s: seq<T>, p: nat, piece: seq<T>)
  {
    p + |piece| <= |s| && forall k | 0 <= k < |piece| :: s[p + k] == piece[k]
  }

  lemma {:induction false} OccursSplit<T>(s: seq<T>, p: nat, a: seq<T>, b: seq<T>)
    ensures Occurs(s, p, a + b) <==> Occurs(s, p, a) && Occurs(s, p + |a|, b)
  {
    if Occurs(s, p, a + b) {
      forall k | 0 <= k < |a| ensures s[p + k] == a[k] {
        assert (a + b)[k] == a[k];
      }
      forall k | 0 <= k < |b| ensures s[p + |a| + k] == b[k] {
        assert (a + b)[|a| + k] == b[k];
      }
    }
    if Occurs(s, p, a) && Occurs(s, p + |a|, b) {
      forall k | 0 <= k < |a + b| ensures s[p + k] == (a + b)[k] {
        if k >= |a| { assert (a + b)[k] == b[k - |a|]; }
      }
    }
  }
}
