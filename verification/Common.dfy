/** Value types shared by the models. */
module Common {

  datatype Option<+T> = None | Some(value: T)

  /** A JSON-like value: what checkpoints, branch states and ring views hold. */
  datatype Json =
    | Null
    | Bool(b: bool)
    | Num(n: int)
    | Str(s: string)
    | Arr(items: seq<Json>)
    | Obj(fields: map<string, Json>)

  predicate Distinct<T(==)>(s: seq<T>) {
    forall i, j :: 0 <= i < j < |s| ==> s[i] != s[j]
  }

  /** The positions at are increasing and lead to the kept elements of s, and to nothing else;
      r lists what f makes of them, in that order. */
  ghost predicate PicksAt<T, U>(s: seq<T>, keep: T -> bool, f: T -> U, r: seq<U>, at: seq<nat>) {
    && |at| == |r|
    && (forall i :: 0 <= i < |at| ==> at[i] < |s| && keep(s[at[i]]) && r[i] == f(s[at[i]]))
    && (forall i, j :: 0 <= i < j < |at| ==> at[i] < at[j])
    && (forall k :: 0 <= k < |s| && keep(s[k]) ==> k in at)
  }

  /** r is the kept elements of s, through f, each once and in order. */
  ghost predicate Picks<T, U>(s: seq<T>, keep: T -> bool, f: T -> U, r: seq<U>) {
    exists at :: PicksAt(s, keep, f, r, at)
  }

  lemma PicksNothing<T, U>(keep: T -> bool, f: T -> U)
    ensures Picks([], keep, f, [])
  {
    assert PicksAt([], keep, f, [], []);
  }

  lemma PicksAppend<T, U>(s: seq<T>, keep: T -> bool, f: T -> U, r: seq<U>, x: T)
    requires Picks(s, keep, f, r)
    ensures Picks(s + [x], keep, f, if keep(x) then r + [f(x)] else r)
  {
    var at: seq<nat> :| PicksAt(s, keep, f, r, at);
    var s' := s + [x];
    if keep(x) {
      var at': seq<nat>, r' := at + [|s|], r + [f(x)];
      forall i | 0 <= i < |at'| ensures at'[i] < |s'| && keep(s'[at'[i]]) && r'[i] == f(s'[at'[i]]) {
        if i < |at| { assert at'[i] == at[i] && s'[at[i]] == s[at[i]]; }
      }
      forall k | 0 <= k < |s'| && keep(s'[k]) ensures k in at' {
        if k < |s| { assert k in at; } else { assert at'[|at|] == k; }
      }
      assert PicksAt(s', keep, f, r', at');
    } else {
      forall i | 0 <= i < |at| ensures at[i] < |s'| && keep(s'[at[i]]) && r[i] == f(s'[at[i]]) { }
      forall k | 0 <= k < |s'| && keep(s'[k]) ensures k in at { assert k < |s|; }
      assert PicksAt(s', keep, f, r, at);
    }
  }

  function Max(a: int, b: int): int { if a >= b then a else b }

  /** A text is split at its first mark in one way. */
  lemma FirstMark(mark: char, k: string, r: string, l: string, s: string)
    requires mark !in k && mark !in l && k + [mark] + r == l + [mark] + s
    ensures k == l && r == s
  {
    var t := k + [mark] + r;
    assert t[|k|] == mark && t[|l|] == mark;
    assert k == t[..|k|] == l && r == t[|k| + 1..] == s;
  }

  function Digit(d: nat): char
    requires d < 10
  {
    "0123456789"[d]
  }

  /** Decimal form without leading zeros. */
  function Decimal(n: nat): string {
    if n < 10 then [Digit(n)] else Decimal(n / 10) + [Digit(n % 10)]
  }
}
