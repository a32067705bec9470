/** The SSH_MSG_KEXINIT packet (section 7.1 of RFC 4253): how it is written and how its ten name-lists
    are found again. */
module KexInit {
  import opened Bytes
  import opened Brigade
  import opened NameList

  const KEXINIT: byte := 20

  /** One of the ten lists: a preference string if one was set, otherwise a table of methods. */
  datatype Choice = Choice(prefs: Option<seq<byte>>, methods: seq<Name>)

  /** The list the client means to send. */
  function Intended(c: Choice): seq<byte> {
    if c.prefs.Some? then c.prefs.value else Join(c.methods)
  }

  function Offer(choices: seq<Choice>): (lists: seq<seq<byte>>)
    ensures |lists| == |choices| && forall i | 0 <= i < |choices| :: lists[i] == Intended(choices[i])
  {
    seq(|choices|, i requires 0 <= i < |choices| => Intended(choices[i]))
  }

  function Size(lists: seq<seq<byte>>): nat {
    if lists == [] then 0 else Size(lists[..|lists| - 1]) + 4 + |lists[|lists| - 1]|
  }

  /** Each list behind its length. */
  function Strings(lists: seq<seq<byte>>): (s: seq<byte>)
    requires forall l <- lists :: |l| < TWO32
    ensures |s| == Size(lists)
  {
    if lists == [] then [] else
    var l := lists[|lists| - 1];
    Strings(lists[..|lists| - 1]) + (U32Bytes(|l|) + l)
  }

  function Packet(cookie: seq<byte>, lists: seq<seq<byte>>): seq<byte>
    requires forall l <- lists :: |l| < TWO32
  {
    [KEXINIT] + cookie + Strings(lists) + [0, 0, 0, 0, 0]
  }

  lemma {:induction false} JoinSnoc(names: seq<Name>, name: Name)
    ensures Join(names + [name]) == if names == [] then name else Join(names) + [44] + name
  {
    if names == [] {
      assert [] + [name] == [name];
    } else if |names| == 1 {
      assert (names + [name])[1..] == [name];
    } else {
      assert (names + [name])[1..] == names[1..] + [name];
      JoinSnoc(names[1..], name);
    }
  }

  /** Every name with a comma behind it: what `libssh2_kex_method_list` writes. */
  function Commas(names: seq<Name>): seq<byte> {
    if names == [] then [] else Join(names) + [COMMA]
  }

  lemma CommasSnoc(names: seq<Name>, name: Name)
    ensures Commas(names + [name]) == Commas(names) + name + [COMMA]
  {
    JoinSnoc(names, name);
  }

  /** `libssh2_kex_method_strlen`. */
  method MethodStrlen(methods: seq<Name>) returns (len: nat)
    ensures len == |Join(methods)|
  {
    len := 0;
    if methods == [] {
      return 0;
    }
    var i := 0;
    while i < |methods|
      invariant i <= |methods| && len == |Commas(methods[..i])|
    {
      CommasSnoc(methods[..i], methods[i]);
      assert methods[..i] + [methods[i]] == methods[..i + 1];
      len := len + |methods[i]| + 1;
      i := i + 1;
    }
    assert methods[..i] == methods;
    return len - 1;
  }

  /** `libssh2_kex_method_list`: behind the list there is one comma too many, outside the length
      answered. */
  method MethodList(buf: array<byte>, at: nat, listStrlen: u32, methods: seq<Name>) returns (count: nat)
    requires listStrlen == |Join(methods)| && at + 4 + |Commas(methods)| <= buf.Length
    modifies buf
    ensures count == 4 + listStrlen
    ensures buf[..] == Splice(old(buf[..]), at, U32Bytes(listStrlen) + Commas(methods))
  {
    hide Splice, Join, Commas, U32Bytes;
    ghost var was := buf[..];
    StoreU32(buf, at, listStrlen);
    assert U32Bytes(listStrlen) + [] == U32Bytes(listStrlen);
    NoNames();
    if methods == [] {
      return 4;
    }
    var p, i := at + 4, 0;
    while i < |methods|
      invariant i <= |methods| && p == at + 4 + |Commas(methods[..i])| && p <= buf.Length
      invariant buf[..] == Splice(was, at, U32Bytes(listStrlen) + Commas(methods[..i]))
    {
      ghost var before := U32Bytes(listStrlen) + Commas(methods[..i]);
      CommasSnoc(methods[..i], methods[i]);
      assert methods[..i] + [methods[i]] == methods[..i + 1];
      CommasGrow(methods, i + 1);
      assert before + (methods[i] + [COMMA]) == U32Bytes(listStrlen) + Commas(methods[..i + 1]);
      SpliceMore(was, at, before, methods[i] + [COMMA]);
      StoreBytes(buf, p, methods[i] + [COMMA]);
      p := p + |methods[i]| + 1;
      i := i + 1;
    }
    assert methods[..i] == methods;
    return listStrlen + 4;
  }

  lemma NoNames()
    ensures Join([]) == [] && Commas([]) == []
  {
  }

  lemma {:induction false} CommasGrow(methods: seq<Name>, i: nat)
    requires i <= |methods|
    ensures |Commas(methods[..i])| <= |Commas(methods)|
    decreases |methods| - i
  {
    if i < |methods| {
      CommasGrow(methods, i + 1);
      CommasSnoc(methods[..i], methods[i]);
      assert methods[..i] + [methods[i]] == methods[..i + 1];
    } else {
      assert methods[..i] == methods;
    }
  }

  /** LIBSSH2_METHOD_PREFS_LEN. */
  method PrefsLen(c: Choice) returns (len: nat)
    ensures len == |Intended(c)|
  {
    if c.prefs.Some? {
      return |c.prefs.value|;
    }
    len := MethodStrlen(c.methods);
  }

  /** LIBSSH2_METHOD_PREFS_STR. */
  method PrefsStr(buf: array<byte>, s: nat, len: nat, c: Choice) returns (s': nat)
    requires len == |Intended(c)| < TWO32 && s + 5 + len <= buf.Length
    modifies buf
    ensures s' == s + 4 + len && buf[..s'] == old(buf[..s]) + U32Bytes(len) + Intended(c)
  {
    ghost var was, text := buf[..], U32Bytes(len) + Intended(c);
    if c.prefs.Some? {
      StoreU32(buf, s, len);
      SpliceMore(was, s, U32Bytes(len), c.prefs.value);
      StoreBytes(buf, s + 4, c.prefs.value);
      SplicePart(was, s, text, |text|);
      s' := s + 4 + len;
    } else {
      var count := MethodList(buf, s, len, c.methods);
      s' := s + count;
      SplicePart(was, s, U32Bytes(len) + Commas(c.methods), |text|);
      assert (U32Bytes(len) + Commas(c.methods))[..|text|] == text;
    }
    assert buf[..s] == was[..s];
  }

  /** The ten preferences in the order they are sent in. */
  datatype Preferences = Preferences(
    kex: Choice, hostkey: Choice, cryptCs: Choice, cryptSc: Choice, macCs: Choice, macSc: Choice,
    compCs: Choice, compSc: Choice, langCs: Choice, langSc: Choice)
  {
    function Ten(): (choices: seq<Choice>)
      ensures |choices| == 10
    {
      [kex, hostkey, cryptCs, cryptSc, macCs, macSc, compCs, compSc, langCs, langSc]
    }
  }

  lemma SizeMore(lists: seq<seq<byte>>, k: nat)
    requires k < |lists|
    ensures Size(lists[..k + 1]) == Size(lists[..k]) + 4 + |lists[k]|
  {
    assert lists[..k + 1][..k] == lists[..k];
  }

  lemma StringsMore(lists: seq<seq<byte>>, k: nat)
    requires k < |lists| && forall l <- lists :: |l| < TWO32
    ensures Strings(lists[..k + 1]) == Strings(lists[..k]) + (U32Bytes(|lists[k]|) + lists[k])
  {
    assert lists[..k + 1][..k] == lists[..k];
  }

  lemma {:induction false} SizeLeft(lists: seq<seq<byte>>, k: nat)
    requires k <= |lists|
    ensures Size(lists[..k]) <= Size(lists)
    decreases |lists| - k
  {
    if k < |lists| {
      SizeMore(lists, k);
      SizeLeft(lists, k + 1);
    } else {
      assert lists[..k] == lists;
    }
  }

  /** How much is allocated (lines 1019-1060). */
  method DataLen(choices: seq<Choice>) returns (dataLen: nat)
    requires |choices| == 10
    ensures dataLen == 22 + Size(Offer(choices))
  {
    hide Intended;
    ghost var lists := Offer(choices);
    dataLen := 62;
    var i := 0;
    while i < |choices|
      invariant i <= |choices| && dataLen == 62 + Size(lists[..i]) - 4 * i
    {
      SizeMore(lists, i);
      var len := PrefsLen(choices[i]);
      dataLen := dataLen + len;
      i := i + 1;
    }
    assert lists[..10] == lists;
  }

  /** `libssh2_kexinit` up to the sending of the packet (lines 1027-1108): the packet carries exactly the
      ten lists that were meant, and fills its buffer exactly. */
  method Build(prefs: Preferences, cookie: seq<byte>) returns (data: array<byte>)
    requires |cookie| == 16 && forall c <- prefs.Ten() :: |Intended(c)| < TWO32
    ensures fresh(data) && data[..] == Packet(cookie, Offer(prefs.Ten()))
    ensures data.Length >= 22 && data[0] == 20 && data[1..17] == cookie && data[data.Length - 5..] == [0, 0, 0, 0, 0]
  {
    hide Size, Strings, Intended, Splice, Preferences.Ten;
    var choices := prefs.Ten();
    ghost var lists := Offer(choices);
    assert forall l <- lists :: |l| < TWO32;
    var dataLen := DataLen(choices);
    data := new byte[dataLen];
    data[0] := KEXINIT;
    ghost var was := data[..];
    StoreBytes(data, 1, cookie);
    ghost var head := [KEXINIT] + cookie;
    assert data[..17] == head by {
      SplicePart(was, 1, cookie, 16);
    }
    assert head + [] == head;
    var s := WriteLists(data, choices, head);
    assert lists[..|lists|] == lists;
    data[s], data[s + 1], data[s + 2], data[s + 3], data[s + 4] := 0, 0, 0, 0, 0;
    assert data[s..] == [0, 0, 0, 0, 0];
    assert data[..] == data[..s] + data[s..];
    assert data[..s][1..17] == cookie;
  }

  /** The lists, one after the other, from the seventeenth byte on. */
  method WriteLists(data: array<byte>, choices: seq<Choice>, ghost head: seq<byte>) returns (s: nat)
    requires forall c <- choices :: |Intended(c)| < TWO32
    requires |head| == 17 && data.Length == 22 + Size(Offer(choices)) && data[..17] == head
    modifies data
    ensures s + 5 == data.Length && data[..s] == head + Strings(Offer(choices))
  {
    hide Size, Strings, Intended, U32Bytes;
    ghost var lists := Offer(choices);
    s := 17;
    var i := 0;
    NoLists();
    assert lists[..0] == [] && head + [] == head;
    while i < |choices|
      invariant i <= |choices| && s == 17 + Size(lists[..i]) && s + 5 <= data.Length
      invariant data[..s] == head + Strings(lists[..i])
    {
      SizeMore(lists, i);
      SizeLeft(lists, i + 1);
      StringsMore(lists, i);
      ghost var done := Strings(lists[..i]);
      var len := PrefsLen(choices[i]);
      s := PrefsStr(data, s, len, choices[i]);
      Regroup(head, done, U32Bytes(len), lists[i]);
      i := i + 1;
    }
    assert lists[..i] == lists;
  }

  lemma Regroup(a: seq<byte>, b: seq<byte>, c: seq<byte>, d: seq<byte>)
    ensures a + b + c + d == a + (b + (c + d))
  {
  }

  lemma NoLists()
    ensures Size([]) == 0 && Strings([]) == []
  {
  }

  /** Where a list is in a packet. */
  datatype Span = Span(at: nat, len: nat)

  predicate Inside(data: seq<byte>, spans: seq<Span>) {
    forall i | 0 <= i < |spans| :: spans[i].at + spans[i].len < |data|
  }

  /** What lines 1567-1605 find from `at` on: so many lists, and a byte behind them. */
  function Find(data: seq<byte>, at: nat, count: nat): (r: Option<seq<Span>>)
    ensures r.Some? ==> |r.value| == count && Inside(data, r.value)
    decreases count
  {
    if count == 0 then
      if at < |data| then Some([]) else None
    else if at + 4 > |data| || at + 4 + U32Of(data[at..]) > |data| then None
    else
      var len := U32Of(data[at..]);
      var rest := Find(data, at + 4 + len, count - 1);
      if rest == None then None else Some([Span(at + 4, len)] + rest.value)
  }

  lemma {:induction false} StringsFirst(lists: seq<seq<byte>>)
    requires lists != [] && forall l <- lists :: |l| < TWO32
    ensures Strings(lists) == (U32Bytes(|lists[0]|) + lists[0]) + Strings(lists[1..])
  {
    hide Strings, U32Bytes;
    var n := |lists| - 1;
    assert lists[..n + 1] == lists;
    StringsMore(lists, n);
    if n == 0 {
      assert lists[..0] == [] && lists[1..] == [];
      NoLists();
    } else {
      StringsFirst(lists[..n]);
      assert lists[..n][1..] == lists[1..][..n - 1] && lists[1..][..n] == lists[1..];
      StringsMore(lists[1..], n - 1);
    }
  }

  /** All of it is where it should be. */
  predicate Holds(data: seq<byte>, spans: seq<Span>, lists: seq<seq<byte>>) {
    |spans| == |lists| &&
    forall i | 0 <= i < |lists| ::
      spans[i].at + spans[i].len < |data| && data[spans[i].at..spans[i].at + spans[i].len] == lists[i]
  }

  /** One list is taken off. */
  lemma FindOne(data: seq<byte>, at: nat, l: seq<byte>, rest: seq<byte>, count: nat)
    requires at <= |data| && |l| < TWO32 && data[at..] == U32Bytes(|l|) + l + rest && rest != []
    ensures at + 4 + |l| < |data| && data[at + 4..at + 4 + |l|] == l && data[at + 4 + |l|..] == rest
    ensures var r := Find(data, at + 4 + |l|, count);
            r.Some? ==> Find(data, at, count + 1) == Some([Span(at + 4, |l|)] + r.value)
  {
    var s := data[at..];
    assert s == U32Bytes(|l|) + (l + rest);
    U32RoundTrip(|l|, l + rest);
    assert data[at + 4..at + 4 + |l|] == s[4..4 + |l|] == l;
    assert data[at + 4 + |l|..] == s[4 + |l|..] == rest;
  }

  lemma HoldsMore(data: seq<byte>, span: Span, l: seq<byte>, spans: seq<Span>, lists: seq<seq<byte>>)
    requires lists != [] && Holds(data, spans, lists[1..]) && l == lists[0]
    requires span.at + span.len < |data| && data[span.at..span.at + span.len] == l
    ensures Holds(data, [span] + spans, lists)
  {
  }

  /** The lists are found where they were put, whatever comes before and behind them. */
  lemma {:induction false} FoundAgain(data: seq<byte>, at: nat, lists: seq<seq<byte>>, behind: seq<byte>)
    requires (forall l <- lists :: |l| < TWO32) && behind != [] && at <= |data| && data[at..] == Strings(lists) + behind
    ensures var r := Find(data, at, |lists|);
            r.Some? && Holds(data, r.value, lists)
    decreases |lists|
  {
    hide U32Bytes, Holds, Inside, Find, Strings;
    if lists == [] {
      NothingHeld(data);
      NoLists();
      FindNone(data, at);
    } else {
      var l, more := lists[0], lists[1..];
      StringsFirst(lists);
      var rest := Strings(more) + behind;
      Associative(U32Bytes(|l|) + l, Strings(more), behind);
      FindOne(data, at, l, rest, |more|);
      FoundAgain(data, at + 4 + |l|, more, behind);
      HoldsMore(data, Span(at + 4, |l|), l, Find(data, at + 4 + |l|, |more|).value, lists);
    }
  }

  lemma FindNone(data: seq<byte>, at: nat)
    requires at < |data|
    ensures Find(data, at, 0) == Some([])
  {
  }

  lemma NothingHeld(data: seq<byte>)
    ensures Holds(data, [], [])
  {
  }

  /** The round trip of the KEXINIT packet: the lists located in what `Build` made are those meant. */
  lemma ListsRoundTrip(prefs: Preferences, cookie: seq<byte>)
    requires |cookie| == 16 && forall c <- prefs.Ten() :: |Intended(c)| < TWO32
    ensures var data := Packet(cookie, Offer(prefs.Ten()));
            var r := Find(data, 17, 10);
            r.Some? && Holds(data, r.value, Offer(prefs.Ten()))
  {
    hide Find, Strings, Intended, Preferences.Ten, Holds;
    var lists := Offer(prefs.Ten());
    var data := Packet(cookie, lists);
    assert data[17..] == Strings(lists) + [0, 0, 0, 0, 0];
    FoundAgain(data, 17, lists, [0, 0, 0, 0, 0]);
  }

  lemma {:induction false} StringsPrefix(lists: seq<seq<byte>>, k: nat)
    requires k <= |lists| && forall l <- lists :: |l| < TWO32
    ensures Strings(lists[..k]) <= Strings(lists)
    decreases |lists| - k
  {
    hide Strings;
    if k < |lists| {
      StringsPrefix(lists, k + 1);
      StringsMore(lists, k);
    } else {
      assert lists[..k] == lists;
    }
  }

  /** Section 7.1 of RFC 4253, byte by byte: the message number, the cookie, from byte 17 on the ten lists
      in their order, each behind its length, then the flag, which announces no guessed packet, and four
      bytes reserved. `at` is where lists and flag start. */
  lemma PacketLayout(prefs: Preferences, cookie: seq<byte>) returns (at: seq<nat>)
    requires |cookie| == 16 && forall c <- prefs.Ten() :: |Intended(c)| < TWO32
    ensures var data := Packet(cookie, Offer(prefs.Ten()));
            && |at| == 11 && at[0] == 17 && |data| == at[10] + 5
            && data[0] == 20 && data[1..17] == cookie && data[at[10]..] == [0, 0, 0, 0, 0]
            && forall i | 0 <= i < 10 ::
                 var list := Intended([prefs.kex, prefs.hostkey, prefs.cryptCs, prefs.cryptSc, prefs.macCs, prefs.macSc,
                                       prefs.compCs, prefs.compSc, prefs.langCs, prefs.langSc][i]);
                 && at[i + 1] == at[i] + 4 + |list| <= |data|
                 && U32Of(data[at[i]..at[i] + 4]) == |list| && data[at[i] + 4..at[i + 1]] == list
  {
    hide Intended, Strings, Size, U32Of, U32Bytes, Packet;
    var lists := Offer(prefs.Ten());
    var data := Packet(cookie, lists);
    at := seq(11, i requires 0 <= i <= 10 => 17 + Size(lists[..i]));
    NoLists();
    assert lists[..0] == [] && lists[..10] == lists;
    PacketEnds(cookie, lists);
    forall i | 0 <= i < 10
      ensures var list := lists[i];
              && at[i + 1] == at[i] + 4 + |list| <= |data|
              && U32Of(data[at[i]..at[i] + 4]) == |list| && data[at[i] + 4..at[i + 1]] == list
    {
      OneString(cookie, lists, i);
    }
  }

  lemma PacketEnds(cookie: seq<byte>, lists: seq<seq<byte>>)
    requires |cookie| == 16 && forall l <- lists :: |l| < TWO32
    ensures var data, behind := Packet(cookie, lists), 17 + Size(lists);
            |data| == behind + 5 && data[0] == 20 && data[1..17] == cookie && data[behind..] == [0, 0, 0, 0, 0]
  {
    hide Strings, Size;
  }

  lemma OneString(cookie: seq<byte>, lists: seq<seq<byte>>, i: nat)
    requires |cookie| == 16 && (forall l <- lists :: |l| < TWO32) && i < |lists|
    ensures var data, at := Packet(cookie, lists), 17 + Size(lists[..i]);
            && 17 + Size(lists[..i + 1]) == at + 4 + |lists[i]| <= |data|
            && U32Of(data[at..at + 4]) == |lists[i]| && data[at + 4..at + 4 + |lists[i]|] == lists[i]
  {
    hide Strings, Size;
    var data, at := Packet(cookie, lists), 17 + Size(lists[..i]);
    SizeMore(lists, i);
    SizeLeft(lists, i + 1);
    StringsMore(lists, i);
    StringsPrefix(lists, i);
    StringsPrefix(lists, i + 1);
    var s, n := U32Bytes(|lists[i]|) + lists[i], |lists[i]|;
    assert data[at..at + 4 + n] == Strings(lists)[at - 17..at - 17 + 4 + n] == s;
    U32RoundTrip(n, []);
    assert data[at..at + 4] == s[..4] == U32Bytes(n) + [];
    assert data[at + 4..at + 4 + n] == s[4..];
  }

  /** Every list found in a packet shorter than 2^24 bytes, but the last, is followed by a NUL: the first
      byte of the next length. */
  lemma {:induction false} FollowedByNul(data: seq<byte>, at: nat, count: nat, i: nat)
    requires |data| < 0x100_0000 && Find(data, at, count).Some? && i + 1 < count
    ensures var spans := Find(data, at, count).value;
            && |spans| == count && at + 4 <= spans[i].at
            && spans[i].at + spans[i].len < |data| && data[spans[i].at + spans[i].len] == 0
    decreases count
  {
    var len := U32Of(data[at..]);
    var next := at + 4 + len;
    if i == 0 {
      var a: int := data[next..][0];
      assert U32Of(data[next..]) >= a * 0x100_0000;
    } else {
      FollowedByNul(data, next, count - 1, i - 1);
    }
  }
}
