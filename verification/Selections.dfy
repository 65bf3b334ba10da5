// Picking elements out of a sequence by flags, in order.
module Selections {

  /** The elements whose flag is `want`, in order. */
  function Chosen<T>(all: seq<T>, flags: seq<bool>, want: bool): seq<T>
    requires |flags| == |all|
  {
    if all == [] then []
    else
      var last := |all| - 1;
      var before := Chosen(all[..last], flags[..last], want);
      if flags[last] == want then before + [all[last]] else before
  }

  /** How many of the first `n` flags are `want`. */
  function Rank(flags: seq<bool>, n: nat, want: bool): (r: nat)
    requires n <= |flags|
    ensures r <= n
  {
    if n == 0 then 0 else Rank(flags, n - 1, want) + (if flags[n - 1] == want then 1 else 0)
  }

  lemma {:induction false} RankOfPrefix(flags: seq<bool>, k: nat, n: nat, want: bool)
    requires n <= k <= |flags|
    ensures Rank(flags[..k], n, want) == Rank(flags, n, want)
  {
    if n > 0 {
      RankOfPrefix(flags, k, n - 1, want);
    }
  }

  /** There are as many as there are such flags. */
  lemma {:induction false} ChosenLength<T>(all: seq<T>, flags: seq<bool>, want: bool)
    requires |flags| == |all|
    ensures |Chosen(all, flags, want)| == Rank(flags, |all|, want)
  {
    if all != [] {
      var last := |all| - 1;
      ChosenLength(all[..last], flags[..last], want);
      RankOfPrefix(flags, last, last, want);
    }
  }

  /** And each such element stands where its rank says. */
  lemma {:induction false} ChosenAt<T>(all: seq<T>, flags: seq<bool>, want: bool, i: nat)
    requires |flags| == |all| && i < |all| && flags[i] == want
    ensures Rank(flags, i, want) < |Chosen(all, flags, want)|
    ensures Chosen(all, flags, want)[Rank(flags, i, want)] == all[i]
  {
    var last := |all| - 1;
    if i < last {
      ChosenAt(all[..last], flags[..last], want, i);
      RankOfPrefix(flags, last, i, want);
    } else {
      ChosenLength(all[..last], flags[..last], want);
      RankOfPrefix(flags, last, last, want);
    }
  }

  lemma ChosenNone<T>()
    ensures Chosen<T>([], [], true) == [] && Chosen<T>([], [], false) == []
  {}

  /** One more element. */
  lemma ChosenMore<T>(all: seq<T>, flags: seq<bool>, want: bool, x: T, flag: bool)
    requires |flags| == |all|
    ensures Chosen(all + [x], flags + [flag], want) ==
            Chosen(all, flags, want) + (if flag == want then [x] else [])
  {
    assert (all + [x])[..|all|] == all && (flags + [flag])[..|all|] == flags;
  }
}
