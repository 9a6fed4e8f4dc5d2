/** Table scraping as both scrapers do it: visit the matched rows in order,
    let a parser accept or skip each one, and keep what it accepts. */
module Collect {
  import opened Wrappers

  /** What `keep` yields on the rows, in row order; `keep` receives each row
      together with its position. */
  function Kept<R, P>(rows: seq<R>, keep: (R, nat) -> Option<P>): (out: seq<P>)
    ensures |out| <= |rows|
    decreases |rows|
  {
    if rows == [] then []
    else
      var i := |rows| - 1;
      Kept(rows[..i], keep) + ToSeq(keep(rows[i], i))
  }

  /** Appending is associative; stated once so that callers need not
      rediscover it element by element. */
  lemma AppendAssoc<T>(a: seq<T>, b: seq<T>, c: seq<T>)
    ensures a + (b + c) == (a + b) + c
  {
  }

  /** One more row adds its own result, if any, at the end. */
  lemma KeptSnoc<R, P>(rows: seq<R>, row: R, keep: (R, nat) -> Option<P>)
    ensures Kept(rows + [row], keep) == Kept(rows, keep) + ToSeq(keep(row, |rows|))
  {
    assert (rows + [row])[..|rows|] == rows;
  }

  /** One loop step: the results so far, plus the next row's own result. */
  lemma KeptStep<R, P>(rows: seq<R>, keep: (R, nat) -> Option<P>, k: nat, r: Option<P>)
    requires k < |rows| && r == keep(rows[k], k)
    ensures Kept(rows[..k + 1], keep) == Kept(rows[..k], keep) + ToSeq(r)
  {
    assert rows[..k + 1] == rows[..k] + [rows[k]];
    KeptSnoc(rows[..k], rows[k], keep);
  }

  /** A value is kept exactly when some row yields it. */
  lemma {:induction false} KeptMembers<R, P>(rows: seq<R>, keep: (R, nat) -> Option<P>, p: P)
    ensures p in Kept(rows, keep) <==> exists i :: 0 <= i < |rows| && keep(rows[i], i) == Some(p)
    decreases |rows|
  {
    if rows != [] {
      var n := |rows| - 1;
      KeptMembers(rows[..n], keep, p);
      assert forall i :: 0 <= i < n ==> rows[..n][i] == rows[i];
    }
  }

  /** Nothing is kept exactly when every row is skipped. */
  lemma {:induction false} KeptEmpty<R, P>(rows: seq<R>, keep: (R, nat) -> Option<P>)
    ensures Kept(rows, keep) == [] <==> forall i :: 0 <= i < |rows| ==> keep(rows[i], i).None?
  {
    if Kept(rows, keep) == [] {
      forall i | 0 <= i < |rows| ensures keep(rows[i], i).None? {
        if keep(rows[i], i).Some? {
          KeptMembers(rows, keep, keep(rows[i], i).value);
        }
      }
    } else {
      KeptMembers(rows, keep, Kept(rows, keep)[0]);
    }
  }

  /** `list.length > 0 ? list : undefined`. */
  function NonEmpty<T>(s: seq<T>): (r: Option<seq<T>>)
    ensures r.Some? ==> r.value == s && s != []
    ensures r.None? ==> s == []
  {
    if |s| > 0 then Some(s) else None
  }

  /** Row order is kept: the results of the first `k` rows come first. */
  lemma {:induction false} KeptPrefix<R, P>(rows: seq<R>, keep: (R, nat) -> Option<P>, k: nat)
    requires k <= |rows|
    ensures Kept(rows[..k], keep) <= Kept(rows, keep)
    decreases |rows| - k
  {
    if k < |rows| {
      var n := |rows| - 1;
      assert rows[..n][..k] == rows[..k];
      KeptPrefix(rows[..n], keep, k);
    } else {
      assert rows[..k] == rows;
    }
  }

  /** When every row is accepted, there is one result per row, in order. */
  lemma {:induction false} KeptAll<R, P>(rows: seq<R>, keep: (R, nat) -> Option<P>)
    requires forall i :: 0 <= i < |rows| ==> keep(rows[i], i).Some?
    ensures |Kept(rows, keep)| == |rows|
    ensures forall i :: 0 <= i < |rows| ==> Kept(rows, keep)[i] == keep(rows[i], i).value
    decreases |rows|
  {
    if rows != [] {
      var n := |rows| - 1;
      var init := rows[..n];
      assert forall i :: 0 <= i < n ==> init[i] == rows[i];
      KeptAll(init, keep);
      var last := keep(rows[n], n).value;
      assert Kept(rows, keep) == Kept(init, keep) + [last];
      forall i | 0 <= i < |rows| ensures Kept(rows, keep)[i] == keep(rows[i], i).value {
        if i < n {
          assert Kept(rows, keep)[i] == Kept(init, keep)[i];
        }
      }
    }
  }

  /** `rows.each(...)` with a `push` for every accepted row. */
  method CollectRows<R, P>(rows: seq<R>, keep: (R, nat) -> Option<P>) returns (out: seq<P>)
    ensures out == Kept(rows, keep)
  {
    out := [];
    var index := 0;
    while index < |rows|
      invariant 0 <= index <= |rows|
      invariant out == Kept(rows[..index], keep)
    {
      var kept := keep(rows[index], index);
      KeptStep(rows, keep, index, kept);
      if kept.Some? {
        out := out + [kept.value];
      }
      index := index + 1;
    }
    assert rows[..|rows|] == rows;
  }
}
