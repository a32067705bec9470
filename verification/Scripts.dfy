/** Scripts: what the world outside will answer, used up from the front. */
module Scripts {
  /** What is left when one answer has been taken; a script that has run out stays so. */
  function Later<T>(script: seq<T>): seq<T> {
    if script == [] then [] else script[1..]
  }

  /** The script `before` has been used up to `after`. */
  ghost predicate Leaves<T>(before: seq<T>, after: seq<T>) {
    |after| <= |before| && after == before[|before| - |after|..]
  }

  /** The answers used between the two moments. */
  function Used<T>(before: seq<T>, after: seq<T>): seq<T>
    requires |after| <= |before|
  {
    before[..|before| - |after|]
  }

  /** The answer used last is such a one. */
  ghost predicate Ends<T>(before: seq<T>, after: seq<T>, such: T -> bool) {
    Leaves(before, after) && var used := Used(before, after); used != [] && such(used[|used| - 1])
  }

  lemma LaterIn<T>(script: seq<T>)
    ensures forall x <- Later(script) :: x in script
    ensures script != [] ==> script[0] in script
  {
  }

  lemma LeavesOn<T>(first: seq<T>, before: seq<T>, after: seq<T>)
    requires Leaves(first, before) && Leaves(before, after)
    ensures Leaves(first, after) && Used(first, after) == Used(first, before) + Used(before, after)
  {
  }

  /** One more answer is taken. */
  lemma EndsLater<T>(first: seq<T>, before: seq<T>, such: T -> bool)
    requires Leaves(first, before) && before != []
    ensures Leaves(first, Later(before)) && Used(first, Later(before)) == Used(first, before) + [before[0]]
    ensures such(before[0]) ==> Ends(first, Later(before), such)
  {
  }
}
