/**
 * The list of outstanding queue tokens (`waiters: Vec<QToken>`): Rust's
 * `Vec::swap_remove`, and a count of the tokens of one kind on one queue.
 */
module Waiters {
  import opened Demikernel

  /**
   * `Vec::swap_remove(index)`: the element at `index` is removed and the last
   * element takes its place; every other element stays where it was.
   */
  function SwapRemove<T>(s: seq<T>, index: nat): (r: seq<T>)
    requires index < |s|
    ensures |r| == |s| - 1
    ensures forall j :: 0 <= j < |r| && j != index ==> r[j] == s[j]
    ensures index < |r| ==> r[index] == s[|s| - 1]
    ensures forall x :: x in r ==> x in s
  {
    var last := |s| - 1;
    if index == last then s[..last] else s[..index] + [s[last]] + s[index + 1..last]
  }

  /** `swap_remove` takes out exactly the element at `index` and keeps all the others. */
  lemma SwapRemoveRemovesOne<T>(s: seq<T>, index: nat)
    requires index < |s|
    ensures multiset(SwapRemove(s, index)) + multiset{s[index]} == multiset(s)
  {
    var last := |s| - 1;
    var r := SwapRemove(s, index);
    if index == last {
      assert s == r + [s[last]];
    } else {
      var front, middle := s[..index], s[index + 1..last];
      assert s == front + [s[index]] + middle + [s[last]];
      assert r == front + [s[last]] + middle;
      calc {
        multiset(s);
        multiset(front) + multiset{s[index]} + multiset(middle) + multiset{s[last]};
        multiset(r) + multiset{s[index]};
      }
    }
  }

  /** 1 when `t` is an operation of `kind` on `qd`, else 0. */
  function Hit(t: QToken, kind: OpKind, qd: QDesc): nat {
    if t.kind == kind && t.qd == qd then 1 else 0
  }

  /** The number of tokens in `ws` for an operation of `kind` on `qd`. */
  function Tally(ws: seq<QToken>, kind: OpKind, qd: QDesc): nat {
    if ws == [] then 0 else Tally(ws[..|ws| - 1], kind, qd) + Hit(ws[|ws| - 1], kind, qd)
  }

  lemma {:induction false} TallyConcat(a: seq<QToken>, b: seq<QToken>, kind: OpKind, qd: QDesc)
    ensures Tally(a + b, kind, qd) == Tally(a, kind, qd) + Tally(b, kind, qd)
  {
    if b == [] {
      assert a + b == a;
    } else {
      var n := |b| - 1;
      assert (a + b)[..|a + b| - 1] == a + b[..n];
      assert (a + b)[|a + b| - 1] == b[n];
      TallyConcat(a, b[..n], kind, qd);
    }
  }

  lemma TallySingle(t: QToken, kind: OpKind, qd: QDesc)
    ensures Tally([t], kind, qd) == Hit(t, kind, qd)
  {
    assert [t][..0] == [];
  }

  /** Removing the token at `index` and appending `added` changes every count by exactly that. */
  lemma TallyAfterStep(ws: seq<QToken>, index: nat, added: seq<QToken>, kind: OpKind, qd: QDesc)
    requires index < |ws|
    ensures Tally(SwapRemove(ws, index) + added, kind, qd) + Hit(ws[index], kind, qd)
         == Tally(ws, kind, qd) + Tally(added, kind, qd)
  {
    var last := |ws| - 1;
    var r := SwapRemove(ws, index);
    TallyConcat(r, added, kind, qd);
    TallySingle(ws[index], kind, qd);
    TallySingle(ws[last], kind, qd);
    if index == last {
      assert ws == r + [ws[last]];
      TallyConcat(r, [ws[last]], kind, qd);
    } else {
      var front, x, middle, y := ws[..index], [ws[index]], ws[index + 1..last], [ws[last]];
      assert ws == front + x + middle + y;
      assert r == front + y + middle;
      TallyConcat(front + x + middle, y, kind, qd);
      TallyConcat(front + x, middle, kind, qd);
      TallyConcat(front, x, kind, qd);
      TallyConcat(front + y, middle, kind, qd);
      TallyConcat(front, y, kind, qd);
    }
  }

  lemma {:induction false} TallyNone(ws: seq<QToken>, kind: OpKind, qd: QDesc)
    requires forall t :: t in ws ==> Hit(t, kind, qd) == 0
    ensures Tally(ws, kind, qd) == 0
  {
    if ws != [] {
      assert forall t :: t in ws[..|ws| - 1] ==> t in ws;
      TallyNone(ws[..|ws| - 1], kind, qd);
    }
  }

  lemma TallyAtLeastOne(ws: seq<QToken>, i: nat, kind: OpKind, qd: QDesc)
    requires i < |ws| && Hit(ws[i], kind, qd) == 1
    ensures Tally(ws, kind, qd) >= 1
  {
    assert ws == ws[..i] + [ws[i]] + ws[i + 1..];
    TallyConcat(ws[..i] + [ws[i]], ws[i + 1..], kind, qd);
    TallyConcat(ws[..i], [ws[i]], kind, qd);
    TallySingle(ws[i], kind, qd);
  }

  /** A count of one means exactly one matching token. */
  lemma TallyOne(ws: seq<QToken>, kind: OpKind, qd: QDesc)
    requires Tally(ws, kind, qd) == 1
    ensures exists i :: 0 <= i < |ws| && Hit(ws[i], kind, qd) == 1
    ensures forall i, j :: 0 <= i < |ws| && 0 <= j < |ws| && Hit(ws[i], kind, qd) == 1 && Hit(ws[j], kind, qd) == 1 ==> i == j
  {
    if forall i :: 0 <= i < |ws| ==> Hit(ws[i], kind, qd) == 0 {
      TallyNone(ws, kind, qd);
    }
    forall i, j | 0 <= i < j < |ws| && Hit(ws[i], kind, qd) == 1 && Hit(ws[j], kind, qd) == 1
      ensures false
    {
      assert ws == ws[..j] + ws[j..];
      TallyConcat(ws[..j], ws[j..], kind, qd);
      TallyAtLeastOne(ws[..j], i, kind, qd);
      TallyAtLeastOne(ws[j..], 0, kind, qd);
    }
  }

  /** No two tokens in the list are the same handle. */
  ghost predicate DistinctIds(ws: seq<QToken>) {
    forall i, j :: 0 <= i < j < |ws| ==> ws[i].id != ws[j].id
  }

  lemma SwapRemoveDistinct(ws: seq<QToken>, index: nat)
    requires index < |ws| && DistinctIds(ws)
    ensures DistinctIds(SwapRemove(ws, index))
  {
    var r := SwapRemove(ws, index);
    forall i, j | 0 <= i < j < |r|
      ensures r[i].id != r[j].id
    {
      var si := if i == index then |ws| - 1 else i;
      var sj := if j == index then |ws| - 1 else j;
      assert r[i] == ws[si] && r[j] == ws[sj] && si != sj;
    }
  }

  lemma AppendFreshDistinct(ws: seq<QToken>, t: QToken)
    requires DistinctIds(ws)
    requires forall u :: u in ws ==> u.id < t.id
    ensures DistinctIds(ws + [t])
  {
    var r := ws + [t];
    forall i, j | 0 <= i < j < |r|
      ensures r[i].id != r[j].id
    {
      if j == |ws| {
        assert r[i] in ws;
      }
    }
  }
}
