/** Comma-separated name-lists in memory, searched the way kex.c does it with strchr and strncmp. */
module NameList {
  import opened Bytes
  import opened Brigade

  const COMMA: byte := 44
  const NUL: byte := 0

  type Name = seq<byte>

  predicate Plain(name: Name) {
    COMMA !in name && NUL !in name
  }

  /** Where the first comma or NUL is. */
  function Stop(s: seq<byte>): (n: nat)
    ensures n <= |s|
    ensures Plain(s[..n]) && (n < |s| ==> s[n] == COMMA || s[n] == NUL)
  {
    if s == [] || s[0] == COMMA || s[0] == NUL then 0 else
    assert s[..1 + Stop(s[1..])] == [s[0]] + s[1..][..Stop(s[1..])];
    1 + Stop(s[1..])
  }

  lemma StopIs(s: seq<byte>, n: nat)
    requires n <= |s| && Plain(s[..n]) && (n < |s| ==> s[n] == COMMA || s[n] == NUL)
    ensures Stop(s) == n
  {
    if n > 0 {
      assert s[..n] == [s[0]] + s[1..][..n - 1];
      StopIs(s[1..], n - 1);
    }
  }

  /** The elements of a list that a scan which ends at a NUL byte can tell. Of a list without NUL these
      are all its elements. */
  function Seen(list: seq<byte>): seq<Name> {
    var n := Stop(list);
    if n == |list| then [list]
    else if list[n] == NUL then []
    else [list[..n]] + Seen(list[n + 1..])
  }

  function Join(names: seq<Name>): seq<byte> {
    if names == [] then [] else
    if |names| == 1 then names[0] else names[0] + [COMMA] + Join(names[1..])
  }

  /** A list put together from names, none of them with a comma or NUL in it, is taken apart into the
      same names. */
  lemma {:induction false} SeenJoin(names: seq<Name>)
    requires names != [] && forall n <- names :: Plain(n)
    ensures Seen(Join(names)) == names && NUL !in Join(names)
  {
    var s := Join(names);
    if |names| == 1 {
      assert s[..|s|] == s;
      StopIs(s, |s|);
    } else {
      SeenJoin(names[1..]);
      assert s[..|names[0]|] == names[0] && s[|names[0]| + 1..] == Join(names[1..]);
      StopIs(s, |names[0]|);
    }
  }

  /** From `a` to `b` there is an element of the list. */
  predicate Between(list: seq<byte>, a: nat, b: nat) {
    a <= b <= |list| && 44 !in list[a..b] && (a == 0 || list[a - 1] == 44) && (b == |list| || list[b] == 44)
  }

  lemma FirstSeen(list: seq<byte>)
    requires 0 !in list
    ensures var n := Stop(list);
            && 44 !in list[..n] && (forall i | 0 <= i < n :: list[i] != 44)
            && if n == |list| then Seen(list) == [list[..n]]
               else list[n] == 44 && 0 !in list[n + 1..] && Seen(list) == [list[..n]] + Seen(list[n + 1..])
  {
    hide Seen;
    SeenStops(list);
  }

  lemma SeenStops(list: seq<byte>)
    ensures var n := Stop(list);
            && (n == |list| ==> Seen(list) == [list[..n]])
            && (n < |list| && list[n] != NUL ==> Seen(list) == [list[..n]] + Seen(list[n + 1..]))
            && (n < |list| && list[n] == NUL ==> Seen(list) == [])
  {
    hide Stop, Plain;
    assert list[..|list|] == list;
  }

  lemma {:induction false} SeenIsBetween(list: seq<byte>, name: Name) returns (a: nat, b: nat)
    requires 0 !in list && name in Seen(list)
    ensures Between(list, a, b) && list[a..b] == name
  {
    hide Seen, Stop;
    FirstSeen(list);
    var n := Stop(list);
    if name == list[..n] {
      a, b := 0, n;
      assert list[0..n] == list[..n];
    } else {
      var rest := list[n + 1..];
      a, b := SeenIsBetween(rest, name);
      assert rest[a..b] == list[n + 1 + a..n + 1 + b];
      assert a > 0 ==> rest[a - 1] == list[n + 1 + a - 1];
      a, b := n + 1 + a, n + 1 + b;
    }
  }

  lemma {:induction false} BetweenIsSeen(list: seq<byte>, a: nat, b: nat)
    requires 0 !in list && Between(list, a, b)
    ensures list[a..b] in Seen(list)
  {
    hide Seen, Stop;
    FirstSeen(list);
    var n := Stop(list);
    if a == 0 {
      assert list[0..b] == list[..b];
      StopIs(list, b);
    } else {
      var rest := list[n + 1..];
      assert rest[a - n - 1..b - n - 1] == list[a..b];
      assert a > n + 1 ==> rest[a - n - 2] == list[a - 1];
      BetweenIsSeen(rest, a - n - 1, b - n - 1);
    }
  }

  /** The elements of a list without NUL are what stands between its commas. */
  lemma SeenElements(list: seq<byte>, name: Name)
    requires 0 !in list
    ensures name in Seen(list) <==>
              exists a, b | 0 <= a <= b <= |list| ::
                list[a..b] == name && 44 !in name && (a == 0 || list[a - 1] == 44) && (b == |list| || list[b] == 44)
  {
    if name in Seen(list) {
      var a, b := SeenIsBetween(list, name);
    }
    if a, b :| 0 <= a <= b <= |list| && list[a..b] == name && 44 !in name &&
               (a == 0 || list[a - 1] == 44) && (b == |list| || list[b] == 44) {
      BetweenIsSeen(list, a, b);
    }
  }

  lemma {:induction false} SeenFits(list: seq<byte>, needle: Name)
    requires needle in Seen(list)
    ensures |needle| <= |list|
  {
    var n := Stop(list);
    if n < |list| && list[n] != NUL && needle != list[..n] {
      SeenFits(list[n + 1..], needle);
    }
  }

  /** strncmp(mem + at, needle, |needle|) == 0. */
  function SameText(mem: seq<byte>, at: nat, needle: Name): (same: bool)
    requires Plain(needle) && at < |mem| && NUL in mem[at..]
    ensures same <==> at + |needle| < |mem| && mem[at..at + |needle|] == needle
    decreases |needle|
  {
    if needle == [] then true
    else if mem[at] != needle[0] then false
    else
      assert mem[at..] == [mem[at]] + mem[at + 1..];
      assert needle == [needle[0]] + needle[1..];
      assert at + |needle| < |mem| ==> mem[at..at + |needle|] == [mem[at]] + mem[at + 1..at + |needle|];
      SameText(mem, at + 1, needle[1..])
  }

  lemma OneFurther(mem: seq<byte>, at: nat, i: nat)
    requires at <= i < |mem| && Plain(mem[at..i]) && mem[i] != COMMA && mem[i] != NUL
    ensures Plain(mem[at..i + 1])
    ensures NUL in mem[i..] ==> NUL in mem[i + 1..]
  {
    assert mem[at..i + 1] == mem[at..i] + [mem[i]];
    assert mem[i..] == [mem[i]] + mem[i + 1..];
  }

  /** strchr(mem + at, ','). */
  method FindComma(mem: seq<byte>, at: nat) returns (p: Option<nat>)
    requires at < |mem| && NUL in mem[at..]
    ensures var n := Stop(mem[at..]);
            n < |mem| - at && p == if mem[at + n] == COMMA then Some(at + n) else None
  {
    var i := at;
    while mem[i] != COMMA
      invariant at <= i < |mem| && Plain(mem[at..i]) && NUL in mem[i..]
      decreases |mem| - i
    {
      if mem[i] == NUL {
        StopIs(mem[at..], i - at);
        return None;
      }
      OneFurther(mem, at, i);
      i := i + 1;
    }
    assert mem[at..][..i - at] == mem[at..i];
    StopIs(mem[at..], i - at);
    return Some(i);
  }

  /** The first element of the list is the needle. */
  predicate Leads(list: seq<byte>, needle: Name) {
    |needle| <= |list| && list[..|needle|] == needle && (|needle| == |list| || list[|needle|] == COMMA)
  }

  lemma LeadsIsFirst(list: seq<byte>, needle: Name)
    requires Plain(needle)
    ensures Leads(list, needle) <==> Seen(list) != [] && Seen(list)[0] == needle
    ensures needle in Seen(list) <==>
              Leads(list, needle) ||
              (Stop(list) < |list| && list[Stop(list)] == COMMA && needle in Seen(list[Stop(list) + 1..]))
  {
    hide Seen, Stop;
    SeenStops(list);
    if Leads(list, needle) {
      StopIs(list, |needle|);
    }
  }

  /** The bytes behind the list do not matter. */
  lemma StopInList(mem: seq<byte>, len: nat, at: nat)
    requires at <= len < |mem| && mem[len] == NUL
    ensures Stop(mem[at..]) == Stop(mem[at..len])
    ensures var p := at + Stop(mem[at..]);
            && p <= len
            && (mem[p] == COMMA ==>
                  p < len && mem[at..len][p - at] == COMMA && mem[at..len][p - at + 1..] == mem[p + 1..len])
            && (mem[p] != COMMA && p < len ==> mem[at..len][p - at] != COMMA)
  {
    var n := Stop(mem[at..len]);
    assert mem[at..][..n] == mem[at..len][..n];
    StopIs(mem[at..], n);
  }

  predicate WholeAt(mem: seq<byte>, len: nat, at: nat, needle: Name)
    requires len < |mem|
  {
    at <= len && Leads(mem[at..len], needle)
  }

  /** The test of lines 1187-1188 and 1197-1199. */
  lemma TextIsWhole(mem: seq<byte>, len: nat, at: nat, needle: Name)
    requires at <= len < |mem| && mem[len] == NUL && Plain(needle)
    ensures NUL in mem[at..]
    ensures WholeAt(mem, len, at, needle) <==>
              at + |needle| <= len && SameText(mem, at, needle) && (at + |needle| == len || mem[at + |needle|] == COMMA)
    ensures SameText(mem, at, needle) ==> at + |needle| <= len
  {
    assert mem[at..][len - at] == NUL;
    if at + |needle| <= len {
      assert mem[at..len][..|needle|] == mem[at..at + |needle|];
    }
    if len < at + |needle| < |mem| {
      assert mem[at..at + |needle|][len - at] == NUL;
    }
  }

  /** The needle is an element from `at` on. */
  ghost predicate Ahead(mem: seq<byte>, len: nat, at: nat, needle: Name) {
    at <= len < |mem| && needle in Seen(mem[at..len])
  }

  lemma AllAhead(mem: seq<byte>, len: nat, needle: Name)
    requires len < |mem| && Plain(needle)
    ensures Ahead(mem, len, 0, needle) <==> needle in Seen(mem[..len])
    ensures WholeAt(mem, len, 0, needle) <==> Seen(mem[..len]) != [] && Seen(mem[..len])[0] == needle
  {
    hide Seen, Leads;
    assert mem[0..len] == mem[..len];
    LeadsIsFirst(mem[..len], needle);
  }

  lemma WholeIsAhead(mem: seq<byte>, len: nat, at: nat, needle: Name)
    requires at <= len < |mem| && Plain(needle)
    ensures WholeAt(mem, len, at, needle) ==> Ahead(mem, len, at, needle)
    ensures len - at < |needle| ==> !Ahead(mem, len, at, needle)
  {
    hide Seen, Leads;
    LeadsIsFirst(mem[at..len], needle);
    if len - at < |needle| {
      Shorter(mem[at..len], needle);
    }
  }

  /** The search has come to the element at `at`, which is not the needle, and `p` is the comma behind
      it, if there is one. */
  ghost predicate At(mem: seq<byte>, len: nat, at: nat, p: Option<nat>, needle: Name)
    requires len < |mem|
  {
    && at <= len && !Leads(mem[at..len], needle)
    && (needle in Seen(mem[..len]) <==> needle in Seen(mem[at..len]))
    && var c := at + Stop(mem[at..]);
       c <= len && p == if mem[c] == COMMA then Some(c) else None
  }

  lemma AtNext(mem: seq<byte>, len: nat, at: nat, p: Option<nat>, needle: Name)
    requires len < |mem| && mem[len] == NUL && Plain(needle) && At(mem, len, at, p, needle)
    ensures p.Some? ==> at <= p.value < len && (needle in Seen(mem[..len]) <==> needle in Seen(mem[p.value + 1..len]))
    ensures p == None ==> needle !in Seen(mem[..len])
  {
    hide Seen, Leads;
    StopInList(mem, len, at);
    LeadsIsFirst(mem[at..len], needle);
  }

  /** `libssh2_kex_agree_instr` on a list that a NUL byte follows: the needle is found just when it is
      a whole element of the list, and the answer is 0 just when it is the first one. */
  method AgreeInstr(mem: seq<byte>, len: nat, needle: Name) returns (r: Option<nat>)
    requires len < |mem| && mem[len] == NUL && Plain(needle)
    ensures r.Some? <==> needle in Seen(mem[..len])
    ensures r.Some? ==> WholeAt(mem, len, r.value, needle)
    ensures r == Some(0) <==> Seen(mem[..len]) != [] && Seen(mem[..len])[0] == needle
  {
    hide Seen, Stop, SameText, WholeAt, Plain, Ahead;
    AllAhead(mem, len, needle);
    WholeIsAhead(mem, len, 0, needle);
    if len < |needle| {
      return None;
    }
    TextIsWhole(mem, len, 0, needle);
    if SameText(mem, 0, needle) && (|needle| == len || mem[|needle|] == COMMA) {
      return Some(0);
    }
    var p := FindComma(mem, 0);
    Passed(mem, len, 0, p, needle);
    while p.Some? && len - p.value > |needle|
      invariant p.Some? ==> p.value < len && (Ahead(mem, len, 0, needle) <==> Ahead(mem, len, p.value + 1, needle))
      invariant p == None ==> !Ahead(mem, len, 0, needle)
      decreases if p.Some? then len - p.value else 0
    {
      var s := p.value + 1;
      TextIsWhole(mem, len, s, needle);
      WholeIsAhead(mem, len, s, needle);
      if SameText(mem, s, needle) && (s + |needle| == len || mem[s + |needle|] == COMMA) {
        return Some(s);
      }
      p := FindComma(mem, s);
      Passed(mem, len, s, p, needle);
    }
    if p.Some? {
      WholeIsAhead(mem, len, p.value + 1, needle);
    }
    return None;
  }

  /** The element at `at` is not the needle, and the search goes on behind the next comma, if there is one. */
  lemma Passed(mem: seq<byte>, len: nat, at: nat, p: Option<nat>, needle: Name)
    requires at <= len < |mem| && mem[len] == NUL && Plain(needle) && !WholeAt(mem, len, at, needle)
    requires Ahead(mem, len, 0, needle) <==> Ahead(mem, len, at, needle)
    requires var n := Stop(mem[at..]);
             n < |mem| - at && p == if mem[at + n] == COMMA then Some(at + n) else None
    ensures p.Some? ==> at <= p.value < len && (Ahead(mem, len, 0, needle) <==> Ahead(mem, len, p.value + 1, needle))
    ensures p == None ==> !Ahead(mem, len, 0, needle)
  {
    hide Seen, Stop, Leads, WholeAt, At;
    AllAhead(mem, len, needle);
    AtStart(mem, len, at, p, needle);
    AtNext(mem, len, at, p, needle);
  }

  lemma AtStart(mem: seq<byte>, len: nat, at: nat, p: Option<nat>, needle: Name)
    requires at <= len < |mem| && mem[len] == NUL && !WholeAt(mem, len, at, needle)
    requires needle in Seen(mem[..len]) <==> needle in Seen(mem[at..len])
    requires var n := Stop(mem[at..]);
             n < |mem| - at && p == if mem[at + n] == COMMA then Some(at + n) else None
    ensures At(mem, len, at, p, needle)
  {
    StopInList(mem, len, at);
  }

  lemma Shorter(list: seq<byte>, needle: Name)
    requires |list| < |needle|
    ensures needle !in Seen(list)
  {
    if needle in Seen(list) {
      SeenFits(list, needle);
    }
  }
}
