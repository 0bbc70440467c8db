/** The cyclic cursor arithmetic shared by the slide cursor and the group
    cursor: a position in a navigation list of length `n`, with -1 meaning
    that nothing is selected yet. */
module Cursor {

  /** The cursor after a step forward: increment, and wrap to 0 at `n`. */
  function Next(c: int, n: int): (r: int)
    ensures c >= -1 && n > 0 ==> 0 <= r < n
    ensures c == n - 1 ==> r == 0
    ensures -1 <= c < n - 1 ==> r == c + 1
  {
    if c + 1 >= n then 0 else c + 1
  }

  /** The cursor after a step back: decrement, and wrap to `n - 1` below 0. */
  function Prev(c: int, n: int): (r: int)
    ensures c <= n && n > 0 ==> 0 <= r < n
    ensures c <= 0 ==> r == n - 1
    ensures 0 < c <= n ==> r == c - 1
  {
    if c - 1 < 0 then n - 1 else c - 1
  }

  lemma PrevUndoesNext(c: int, n: int)
    requires 0 <= c < n
    ensures Prev(Next(c, n), n) == c
  {
  }

  lemma NextUndoesPrev(c: int, n: int)
    requires 0 <= c < n
    ensures Next(Prev(c, n), n) == c
  {
  }

  /** The cursor after `k` steps forward. */
  function Advance(c: int, k: nat, n: int): int
  {
    if k == 0 then c else Next(Advance(c, k - 1, n), n)
  }

  /** The cursor after `k` steps back. */
  function Retreat(c: int, k: nat, n: int): int
  {
    if k == 0 then c else Prev(Retreat(c, k - 1, n), n)
  }

  /** Steps forward compose: `j` steps then `k` steps is `j + k` steps. */
  lemma {:induction false} AdvanceAdds(c: int, j: nat, k: nat, n: int)
    ensures Advance(c, j + k, n) == Advance(Advance(c, j, n), k, n)
  {
    if k > 0 {
      AdvanceAdds(c, j, k - 1, n);
    }
  }

  /** Steps back compose the same way. */
  lemma {:induction false} RetreatAdds(c: int, j: nat, k: nat, n: int)
    ensures Retreat(c, j + k, n) == Retreat(Retreat(c, j, n), k, n)
  {
    if k > 0 {
      RetreatAdds(c, j, k - 1, n);
    }
  }

  /** Before the end of the list, `k` steps forward add `k`. */
  lemma {:induction false} AdvanceWithinList(c: int, k: nat, n: int)
    requires 0 <= c && c + k < n
    ensures Advance(c, k, n) == c + k
  {
    if k > 0 {
      AdvanceWithinList(c, k - 1, n);
    }
  }

  /** Before the start of the list, `k` steps back subtract `k`. */
  lemma {:induction false} RetreatWithinList(c: int, k: nat, n: int)
    requires k <= c < n
    ensures Retreat(c, k, n) == c - k
  {
    if k > 0 {
      RetreatWithinList(c, k - 1, n);
    }
  }

  /** `n` steps forward, or `n` steps back, bring an in-range cursor back to
      where it started: both cursors cycle with period `n`. */
  lemma {:induction false} FullCycle(c: int, n: int)
    requires 0 <= c < n
    ensures Advance(c, n, n) == c && Retreat(c, n, n) == c
  {
    var toEnd := n - 1 - c;
    AdvanceWithinList(c, toEnd, n);
    AdvanceAdds(c, toEnd, 1, n);
    AdvanceAdds(c, toEnd + 1, c, n);
    AdvanceWithinList(0, c, n);

    RetreatWithinList(c, c, n);
    RetreatAdds(c, c, 1, n);
    RetreatAdds(c, c + 1, toEnd, n);
    RetreatWithinList(n - 1, toEnd, n);
  }

  /** From the unselected state, the first step forward reaches position 0 and
      the rest go on from there. */
  lemma {:induction false} AdvanceFromUnselected(k: nat, n: int)
    requires n > 0
    ensures Advance(-1, k + 1, n) == Advance(0, k, n)
  {
    AdvanceAdds(-1, 1, k, n);
  }

  /** From the unselected state, the first step back reaches the last position. */
  lemma {:induction false} RetreatFromUnselected(k: nat, n: int)
    requires n > 0
    ensures Retreat(-1, k + 1, n) == Retreat(n - 1, k, n)
  {
    RetreatAdds(-1, 1, k, n);
  }
}
