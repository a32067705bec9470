/** Agreement on methods (section 7.1 of RFC 4253): the first choice of the client that the server also
    lists. */
module KexAgree {
  import opened Bytes
  import opened Brigade
  import opened NameList
  import opened KexInit

  datatype KexMethod = KexMethod(name: Name, reqEncHostkey: bool, reqSignHostkey: bool)

  datatype HostMethod = HostMethod(name: Name, encrypt: bool, sigVerify: bool)

  /** `Overrun`: a table is searched past its last entry. */
  datatype Outcome<T> = Agreed(value: T) | Refused | Overrun

  /** The names in a preference string, as the loops over it see them (a comma at the end is not
      followed by another name). */
  function Wanted(prefs: seq<byte>): seq<Name> {
    if prefs == [] then [] else
    var n := Stop(prefs);
    if n == |prefs| then [prefs] else [prefs[..n]] + Wanted(prefs[n + 1..])
  }

  /** The client's choices in its order of preference. */
  function Choices(c: Choice): seq<Name> {
    if c.prefs.Some? then Wanted(c.prefs.value) else c.methods
  }

  /** The names are fit for lists, and preference strings are C strings. */
  predicate Usable(c: Choice) {
    (forall m <- c.methods :: Plain(m)) && (c.prefs.Some? ==> NUL !in c.prefs.value)
  }

  /** What the client lists is what it chooses from, when the list does not end in a comma. */
  lemma {:induction false} WantedIsSeen(prefs: seq<byte>)
    requires prefs != [] && NUL !in prefs && prefs[|prefs| - 1] != COMMA
    ensures Seen(prefs) == Wanted(prefs)
  {
    var n := Stop(prefs);
    if n < |prefs| {
      WantedIsSeen(prefs[n + 1..]);
    }
  }

  lemma OffersItsChoices(c: Choice)
    requires Usable(c)
    requires if c.prefs.Some? then c.prefs.value != [] && c.prefs.value[|c.prefs.value| - 1] != COMMA else c.methods != []
    ensures Seen(Intended(c)) == Choices(c)
  {
    if c.prefs.Some? {
      WantedIsSeen(c.prefs.value);
    } else {
      SeenJoin(c.methods);
    }
  }

  /** One step of the loops over a preference string: how long the name at `s` is, and where the next
      one starts. */
  method TakeName(prefs: seq<byte>, s: nat) returns (methodLen: nat, next: Option<nat>)
    requires s < |prefs| && NUL !in prefs
    ensures s + methodLen <= |prefs| && Plain(prefs[s..s + methodLen])
    ensures next.Some? ==> s < next.value <= |prefs|
    ensures Wanted(prefs[s..]) == [prefs[s..s + methodLen]] + if next == None then [] else Wanted(prefs[next.value..])
  {
    hide Stop, Wanted;
    var mem := prefs + [NUL];
    assert mem[s..][|prefs| - s] == NUL;
    NameAt(prefs, s);
    var p := FindComma(mem, s);
    if p.Some? {
      return p.value - s, Some(p.value + 1);
    }
    return |prefs| - s, None;
  }

  lemma NameAt(prefs: seq<byte>, s: nat)
    requires s < |prefs| && NUL !in prefs
    ensures var mem := prefs + [NUL];
            var n := Stop(mem[s..]);
            && s + n <= |prefs| && Plain(prefs[s..s + n]) && (mem[s + n] == COMMA <==> s + n < |prefs|)
            && Wanted(prefs[s..]) == [prefs[s..s + n]] + if s + n == |prefs| then [] else Wanted(prefs[s + n + 1..])
  {
    hide Stop, Wanted;
    var mem, rest := prefs + [NUL], prefs[s..];
    assert mem[s..|prefs|] == rest;
    StopInList(mem, |prefs|, s);
    FirstWanted(rest);
    var n := Stop(rest);
    assert rest[..n] == prefs[s..s + n];
    if n < |rest| {
      assert rest[n] == prefs[s + n];
      assert rest[n + 1..] == prefs[s + n + 1..];
    }
  }

  lemma FirstWanted(prefs: seq<byte>)
    requires prefs != []
    ensures var n := Stop(prefs);
            Wanted(prefs) == [prefs[..n]] + if n == |prefs| then [] else Wanted(prefs[n + 1..])
  {
    hide Stop;
    assert prefs[..|prefs|] == prefs;
  }

  /** Where in a list of choices the first one is that the peer offers. */
  function FirstIn(wanted: seq<Name>, offered: seq<Name>): (r: Option<nat>)
    ensures r.Some? ==> r.value < |wanted| && wanted[r.value] in offered &&
                        forall j | 0 <= j < r.value :: wanted[j] !in offered
    ensures r == None ==> forall n <- wanted :: n !in offered
  {
    if wanted == [] then None
    else if wanted[0] in offered then Some(0)
    else
      var rest := FirstIn(wanted[1..], offered);
      if rest == None then None else Some(rest.value + 1)
  }

  /** `libssh2_get_method_by_name`. */
  method GetMethodByName(name: Name, methods: seq<Name>) returns (r: Option<nat>)
    ensures r == FirstIn(methods, [name])
  {
    var i := 0;
    while i < |methods|
      invariant i <= |methods| && name !in methods[..i]
    {
      if |methods[i]| == |name| && methods[i] == name {
        FirstInIs(methods, [name], i);
        return Some(i);
      }
      i := i + 1;
    }
    return None;
  }

  lemma FirstInIs(wanted: seq<Name>, offered: seq<Name>, k: nat)
    requires k < |wanted| && wanted[k] in offered && forall j | 0 <= j < k :: wanted[j] !in offered
    ensures FirstIn(wanted, offered) == Some(k)
  {
  }

  /** The method the choices lead to: the first that is offered, if it is known. */
  function Chosen(c: Choice, offered: seq<Name>): Option<nat> {
    var k := FirstIn(Choices(c), offered);
    if k == None then None else FirstIn(c.methods, [Choices(c)[k.value]])
  }

  /** `libssh2_kex_agree_crypt`, `_mac` and `_comp`, which differ in nothing but their tables. */
  method AgreeName(c: Choice, mem: seq<byte>, len: nat) returns (r: Option<nat>)
    requires len < |mem| && mem[len] == NUL && Usable(c)
    ensures r == Chosen(c, Seen(mem[..len]))
  {
    hide Seen, Wanted;
    if c.prefs.Some? {
      r := AgreeWantedName(c.prefs.value, c.methods, mem, len);
      return;
    }
    ghost var offered := Seen(mem[..len]);
    var i := 0;
    while i < |c.methods|
      invariant i <= |c.methods| && forall j | 0 <= j < i :: c.methods[j] !in offered
    {
      var at := AgreeInstr(mem, len, c.methods[i]);
      if at.Some? {
        FirstInIs(c.methods, offered, i);
        FirstInIs(c.methods, [c.methods[i]], i);
        return Some(i);
      }
      i := i + 1;
    }
    return None;
  }

  /** Their first loop (for ciphers, lines 1388-1414). */
  method AgreeWantedName(prefs: seq<byte>, methods: seq<Name>, mem: seq<byte>, len: nat) returns (r: Option<nat>)
    requires len < |mem| && mem[len] == NUL && NUL !in prefs
    ensures var all := Wanted(prefs);
            var k := FirstIn(all, Seen(mem[..len]));
            r == if k == None then None else FirstIn(methods, [all[k.value]])
  {
    hide Seen, Wanted;
    ghost var offered, all := Seen(mem[..len]), Wanted(prefs);
    ghost var k := 0;
    var s: Option<nat> := Some(0);
    assert prefs[0..] == prefs && all[0..] == all;
    WantedNothing(prefs);
    while s.Some? && s.value < |prefs|
      invariant s.Some? ==> s.value <= |prefs|
      invariant k <= |all| && all[k..] == if s == None then [] else Wanted(prefs[s.value..])
      invariant forall j | 0 <= j < k :: all[j] !in offered
      decreases if s.Some? then |prefs| - s.value + 1 else 0
    {
      var methodLen, next := TakeName(prefs, s.value);
      var name := prefs[s.value..s.value + methodLen];
      assert all[k] == all[k..][0] == name;
      var at := AgreeInstr(mem, len, name);
      if at.Some? {
        FirstInIs(all, offered, k);
        r := GetMethodByName(name, methods);
        return;
      }
      assert all[k + 1..] == all[k..][1..];
      s, k := next, k + 1;
    }
    return None;
  }

  /** All the client's choices are methods it has. */
  predicate Known(c: Choice) {
    forall n <- Choices(c) :: n in c.methods
  }

  /** What is agreed on is the first choice of the client that the server lists, and there is agreement
      just when there is such a choice. */
  lemma FirstCommonChoice(c: Choice, offered: seq<Name>)
    requires Known(c)
    ensures Chosen(c, offered).Some? <==> exists n <- Choices(c) :: n in offered
    ensures Chosen(c, offered).Some? ==>
              && Chosen(c, offered).value < |c.methods|
              && exists k | 0 <= k < |Choices(c)| ::
                   Choices(c)[k] == c.methods[Chosen(c, offered).value] && Choices(c)[k] in offered &&
                   forall j | 0 <= j < k :: Choices(c)[j] !in offered
  {
    var k := FirstIn(Choices(c), offered);
    if k.Some? {
      var name := Choices(c)[k.value];
      assert name in Choices(c);
      var m :| 0 <= m < |c.methods| && c.methods[m] == name;
      assert FirstIn(c.methods, [name]).Some?;
    }
  }

  /** The choice is a method of the client's, and the server lists it too. */
  predicate Common(c: Choice, offered: seq<Name>, k: nat) {
    k < |Choices(c)| && Choices(c)[k] in offered && Choices(c)[k] in c.methods
  }

  /** Both sides know one of the choices, the `k`-th the first such: still nothing is agreed on just
      when a choice before it is listed by the server, which is then one the client does not have. */
  lemma UnknownChoiceRefuses(c: Choice, offered: seq<Name>, k: nat)
    requires Common(c, offered, k) && forall j | 0 <= j < k :: !Common(c, offered, j)
    ensures Chosen(c, offered) == None <==> exists j | 0 <= j < k :: Choices(c)[j] in offered
    ensures Chosen(c, offered).Some? ==> Chosen(c, offered) == FirstIn(c.methods, [Choices(c)[k]])
  {
    var first := FirstIn(Choices(c), offered);
    assert Choices(c)[k] in Choices(c);
    assert first.Some? && first.value <= k;
    var name := Choices(c)[first.value];
    if first.value == k {
      var m :| 0 <= m < |c.methods| && c.methods[m] == name;
      assert c.methods[m] in [name];
    } else {
      assert !Common(c, offered, first.value);
    }
  }

  /** The client prefers "b", which it does not have, to "a"; the server lists both. */
  lemma UnknownBeforeKnown()
    ensures var c := Choice(Some([98, COMMA, 97]), [[97]]);
            Common(c, [[97], [98]], 1) && Chosen(c, [[97], [98]]) == None
  {
    var c := Choice(Some([98, COMMA, 97]), [[97]]);
    var prefs := c.prefs.value;
    StopIs(prefs, 1);
    assert prefs[..1] == [98] && prefs[2..] == [97];
    StopIs([97], 1);
    assert Wanted([97]) == [[97]];
    assert Choices(c) == [[98]] + [[97]];
    assert !Common(c, [[97], [98]], 0);
    UnknownChoiceRefuses(c, [[97], [98]], 1);
  }

  /** The key exchange needs no more of the host key than it can do. */
  predicate Suits(k: KexMethod, h: HostMethod) {
    (!k.reqEncHostkey || h.encrypt) && (!k.reqSignHostkey || h.sigVerify)
  }

  function KexNames(ms: seq<KexMethod>): (ns: seq<Name>)
    ensures |ns| == |ms| && forall i | 0 <= i < |ms| :: ns[i] == ms[i].name
  {
    seq(|ms|, i requires 0 <= i < |ms| => ms[i].name)
  }

  function HostNames(ms: seq<HostMethod>): (ns: seq<Name>)
    ensures |ns| == |ms| && forall i | 0 <= i < |ms| :: ns[i] == ms[i].name
  {
    seq(|ms|, i requires 0 <= i < |ms| => ms[i].name)
  }

  /** The host key method that a preference list leads to. */
  function HostFrom(wanted: seq<Name>, hosts: seq<HostMethod>, k: KexMethod, offered: seq<Name>): Outcome<nat> {
    if wanted == [] then Refused
    else if wanted[0] !in offered then HostFrom(wanted[1..], hosts, k, offered)
    else match FirstIn(HostNames(hosts), [wanted[0]])
      case None => Refused
      case Some(h) => if Suits(k, hosts[h]) then Agreed(h) else HostFrom(wanted[1..], hosts, k, offered)
  }

  /** The host key method that the table leads to; there is no test for its end. */
  function HostInTable(hosts: seq<HostMethod>, i: nat, k: KexMethod, offered: seq<Name>): Outcome<nat>
    requires i <= |hosts|
    decreases |hosts| - i
  {
    if i == |hosts| then Overrun
    else if hosts[i].name in offered && Suits(k, hosts[i]) then Agreed(i)
    else HostInTable(hosts, i + 1, k, offered)
  }

  function HostFor(prefs: Option<seq<byte>>, hosts: seq<HostMethod>, k: KexMethod, offered: seq<Name>): Outcome<nat> {
    if prefs.Some? then HostFrom(Wanted(prefs.value), hosts, k, offered) else HostInTable(hosts, 0, k, offered)
  }

  /** Key exchange and host key method together. */
  function KexFrom(wanted: seq<Name>, kexes: seq<KexMethod>, offered: seq<Name>,
                   hostPrefs: Option<seq<byte>>, hosts: seq<HostMethod>, offeredHosts: seq<Name>): Outcome<(nat, nat)>
  {
    if wanted == [] then Refused
    else if wanted[0] !in offered then KexFrom(wanted[1..], kexes, offered, hostPrefs, hosts, offeredHosts)
    else match FirstIn(KexNames(kexes), [wanted[0]])
      case None => Refused
      case Some(k) =>
        match HostFor(hostPrefs, hosts, kexes[k], offeredHosts)
        case Agreed(h) => Agreed((k, h))
        case Overrun => Overrun
        case Refused => KexFrom(wanted[1..], kexes, offered, hostPrefs, hosts, offeredHosts)
  }

  /** `libssh2_kex_agree_hostkey`. */
  method AgreeHostkey(prefs: Option<seq<byte>>, hosts: seq<HostMethod>, k: KexMethod, mem: seq<byte>, len: nat)
    returns (r: Outcome<nat>)
    requires len < |mem| && mem[len] == NUL && (forall h <- hosts :: Plain(h.name))
    requires (prefs.Some? ==> NUL !in prefs.value)
    ensures r == HostFor(prefs, hosts, k, Seen(mem[..len]))
    ensures r.Agreed? ==>
              && r.value < |hosts| && hosts[r.value].name in Seen(mem[..len])
              && (k.reqEncHostkey ==> hosts[r.value].encrypt) && (k.reqSignHostkey ==> hosts[r.value].sigVerify)
    ensures r.Overrun? ==>
              prefs == None && forall h <- hosts | h.name in Seen(mem[..len]) ::
                (k.reqEncHostkey && !h.encrypt) || (k.reqSignHostkey && !h.sigVerify)
  {
    HostServes(prefs, hosts, k, Seen(mem[..len]));
    if prefs.Some? {
      r := AgreeWantedHostkey(prefs.value, hosts, k, mem, len);
      return;
    }
    ghost var offered := Seen(mem[..len]);
    var i := 0;
    while i < |hosts|
      invariant i <= |hosts| && HostInTable(hosts, 0, k, offered) == HostInTable(hosts, i, k, offered)
    {
      var at := AgreeInstr(mem, len, hosts[i].name);
      if at.Some? {
        if !k.reqEncHostkey || hosts[i].encrypt {
          if !k.reqSignHostkey || hosts[i].sigVerify {
            return Agreed(i);
          }
        }
      }
      i := i + 1;
    }
    return Overrun;
  }

  /** Its first loop (lines 1238-1272). */
  method AgreeWantedHostkey(prefs: seq<byte>, hosts: seq<HostMethod>, k: KexMethod, mem: seq<byte>, len: nat)
    returns (r: Outcome<nat>)
    requires len < |mem| && mem[len] == NUL && (forall h <- hosts :: Plain(h.name)) && NUL !in prefs
    ensures r == HostFrom(Wanted(prefs), hosts, k, Seen(mem[..len]))
  {
    hide Wanted, Seen;
    ghost var offered := Seen(mem[..len]);
    ghost var rest := Wanted(prefs);
    var s: Option<nat> := Some(0);
    assert prefs[0..] == prefs;
    WantedNothing(prefs);
    while s.Some? && s.value < |prefs|
      invariant s.Some? ==> s.value <= |prefs|
      invariant rest == if s == None then [] else Wanted(prefs[s.value..])
      invariant HostFrom(Wanted(prefs), hosts, k, offered) == HostFrom(rest, hosts, k, offered)
      decreases if s.Some? then |prefs| - s.value + 1 else 0
    {
      var methodLen, next := TakeName(prefs, s.value);
      var name := prefs[s.value..s.value + methodLen];
      var at := AgreeInstr(mem, len, name);
      if at.Some? {
        var h := GetMethodByName(name, HostNames(hosts));
        if h == None {
          return Refused;
        }
        if !k.reqEncHostkey || hosts[h.value].encrypt {
          if !k.reqSignHostkey || hosts[h.value].sigVerify {
            return Agreed(h.value);
          }
        }
      }
      assert rest[1..] == if next == None then [] else Wanted(prefs[next.value..]);
      s, rest := next, rest[1..];
    }
    return Refused;
  }

  lemma WantedNothing(prefs: seq<byte>)
    ensures Wanted(prefs[|prefs|..]) == []
  {
  }

  /** Of the first `n` choices those that the server lists are known, and cannot do what is needed. */
  predicate NoneSuits(wanted: seq<Name>, n: nat, hosts: seq<HostMethod>, k: KexMethod, offered: seq<Name>)
    requires n <= |wanted|
  {
    forall i | 0 <= i < n && wanted[i] in offered ::
      var x := FirstIn(HostNames(hosts), [wanted[i]]); x.Some? && !Suits(k, hosts[x.value])
  }

  lemma NoneSuitsYet(wanted: seq<Name>, n: nat, hosts: seq<HostMethod>, k: KexMethod, offered: seq<Name>)
    requires wanted != [] && n <= |wanted[1..]| && NoneSuits(wanted[1..], n, hosts, k, offered)
    requires wanted[0] in offered ==>
               var x := FirstIn(HostNames(hosts), [wanted[0]]); x.Some? && !Suits(k, hosts[x.value])
    ensures NoneSuits(wanted, n + 1, hosts, k, offered)
  {
    hide Suits;
    forall i | 0 <= i < n + 1 && wanted[i] in offered
      ensures var x := FirstIn(HostNames(hosts), [wanted[i]]); x.Some? && !Suits(k, hosts[x.value])
    {
      if i > 0 {
        assert wanted[1..][i - 1] == wanted[i];
      }
    }
  }

  /** The choice at which the search ends. */
  lemma {:induction false} HostSearch(wanted: seq<Name>, hosts: seq<HostMethod>, k: KexMethod, offered: seq<Name>)
    returns (j: nat)
    ensures j <= |wanted| && NoneSuits(wanted, j, hosts, k, offered)
    ensures match HostFrom(wanted, hosts, k, offered)
            case Agreed(h) =>
              && j < |wanted| && wanted[j] in offered && FirstIn(HostNames(hosts), [wanted[j]]) == Some(h)
              && Suits(k, hosts[h])
            case Refused => j < |wanted| ==> wanted[j] in offered && wanted[j] !in HostNames(hosts)
            case Overrun => false
  {
    hide Suits;
    j := 0;
    if wanted != [] {
      assert wanted[0] in [wanted[0]];
      var x := FirstIn(HostNames(hosts), [wanted[0]]);
      if !(wanted[0] in offered && (x == None || Suits(k, hosts[x.value]))) {
        j := HostSearch(wanted[1..], hosts, k, offered);
        NoneSuitsYet(wanted, j, hosts, k, offered);
        j := j + 1;
      }
    }
  }

  /** The host key method is the first choice that the server lists and that is known and can do what the
      key exchange needs of it: encrypt, or sign, or both. There is none just when all that the server lists
      cannot, up to the end or up to a choice that is listed but not known. */
  lemma FirstFittingHost(wanted: seq<Name>, hosts: seq<HostMethod>, k: KexMethod, offered: seq<Name>)
    ensures match HostFrom(wanted, hosts, k, offered)
            case Agreed(h) =>
              exists j | 0 <= j < |wanted| ::
                && wanted[j] in offered && FirstIn(HostNames(hosts), [wanted[j]]) == Some(h)
                && (k.reqEncHostkey ==> hosts[h].encrypt) && (k.reqSignHostkey ==> hosts[h].sigVerify)
                && forall i | 0 <= i < j && wanted[i] in offered ::
                     var x := FirstIn(HostNames(hosts), [wanted[i]]);
                     x.Some? && ((k.reqEncHostkey && !hosts[x.value].encrypt) || (k.reqSignHostkey && !hosts[x.value].sigVerify))
            case Refused =>
              exists j | 0 <= j <= |wanted| ::
                && (j < |wanted| ==> wanted[j] in offered && wanted[j] !in HostNames(hosts))
                && forall i | 0 <= i < j && wanted[i] in offered ::
                     var x := FirstIn(HostNames(hosts), [wanted[i]]);
                     x.Some? && ((k.reqEncHostkey && !hosts[x.value].encrypt) || (k.reqSignHostkey && !hosts[x.value].sigVerify))
            case Overrun => false
  {
    var j := HostSearch(wanted, hosts, k, offered);
  }

  /** Without preferences it is the first of the table that the server lists and that can do what the key
      exchange needs, and the search runs over the end of the table just when there is none. */
  lemma {:induction false} FirstFittingInTable(hosts: seq<HostMethod>, i: nat, k: KexMethod, offered: seq<Name>)
    requires i <= |hosts|
    ensures match HostInTable(hosts, i, k, offered)
            case Agreed(h) =>
              && i <= h < |hosts| && hosts[h].name in offered
              && (k.reqEncHostkey ==> hosts[h].encrypt) && (k.reqSignHostkey ==> hosts[h].sigVerify)
              && forall j | i <= j < h && hosts[j].name in offered ::
                   (k.reqEncHostkey && !hosts[j].encrypt) || (k.reqSignHostkey && !hosts[j].sigVerify)
            case Refused => false
            case Overrun =>
              forall j | i <= j < |hosts| && hosts[j].name in offered ::
                (k.reqEncHostkey && !hosts[j].encrypt) || (k.reqSignHostkey && !hosts[j].sigVerify)
    decreases |hosts| - i
  {
    if i < |hosts| {
      FirstFittingInTable(hosts, i + 1, k, offered);
    }
  }

  /** A table of one method, and a server that lists only another. */
  lemma TableOverrun(k: KexMethod)
    ensures HostInTable([HostMethod([97], true, true)], 0, k, [[98]]) == Overrun
  {
    var hosts := [HostMethod([97], true, true)];
    assert hosts[0].name !in [[98]];
    FirstFittingInTable(hosts, 0, k, [[98]]);
  }

  /** The method found is in both lists and can do what the key exchange needs. */
  lemma HostServes(prefs: Option<seq<byte>>, hosts: seq<HostMethod>, k: KexMethod, offered: seq<Name>)
    ensures match HostFor(prefs, hosts, k, offered)
            case Agreed(h) =>
              && h < |hosts| && hosts[h].name in offered && (prefs.Some? ==> hosts[h].name in Wanted(prefs.value))
              && (k.reqEncHostkey ==> hosts[h].encrypt) && (k.reqSignHostkey ==> hosts[h].sigVerify)
            case Refused => prefs.Some?
            case Overrun =>
              prefs == None && forall h <- hosts | h.name in offered ::
                (k.reqEncHostkey && !h.encrypt) || (k.reqSignHostkey && !h.sigVerify)
  {
    if prefs.Some? {
      var j := HostSearch(Wanted(prefs.value), hosts, k, offered);
    } else {
      FirstFittingInTable(hosts, 0, k, offered);
    }
  }

  /** The first `n` choices that the server lists are known, and the search for a host key to go with them
      comes back empty. */
  predicate NoneSettles(wanted: seq<Name>, n: nat, kexes: seq<KexMethod>, offered: seq<Name>,
                        hostPrefs: Option<seq<byte>>, hosts: seq<HostMethod>, offeredHosts: seq<Name>)
    requires n <= |wanted|
  {
    forall i | 0 <= i < n && wanted[i] in offered ::
      var k := FirstIn(KexNames(kexes), [wanted[i]]);
      k.Some? && HostFor(hostPrefs, hosts, kexes[k.value], offeredHosts) == Refused
  }

  lemma NoneSettlesYet(wanted: seq<Name>, n: nat, kexes: seq<KexMethod>, offered: seq<Name>,
                       hostPrefs: Option<seq<byte>>, hosts: seq<HostMethod>, offeredHosts: seq<Name>)
    requires wanted != [] && n <= |wanted[1..]|
    requires NoneSettles(wanted[1..], n, kexes, offered, hostPrefs, hosts, offeredHosts)
    requires wanted[0] in offered ==>
               var k := FirstIn(KexNames(kexes), [wanted[0]]);
               k.Some? && HostFor(hostPrefs, hosts, kexes[k.value], offeredHosts) == Refused
    ensures NoneSettles(wanted, n + 1, kexes, offered, hostPrefs, hosts, offeredHosts)
  {
    hide HostFor;
    forall i | 0 <= i < n + 1 && wanted[i] in offered
      ensures var k := FirstIn(KexNames(kexes), [wanted[i]]);
              k.Some? && HostFor(hostPrefs, hosts, kexes[k.value], offeredHosts) == Refused
    {
      if i > 0 {
        assert wanted[1..][i - 1] == wanted[i];
      }
    }
  }

  /** The first choice `j` that the server lists too and that is not known, or for which the search for a
      host key does not come back empty, decides; nothing is agreed on just when it is not known or there
      is none. */
  lemma {:induction false} FirstKexWithHost(wanted: seq<Name>, kexes: seq<KexMethod>, offered: seq<Name>,
                                            hostPrefs: Option<seq<byte>>, hosts: seq<HostMethod>, offeredHosts: seq<Name>)
    returns (j: nat)
    ensures j <= |wanted| && NoneSettles(wanted, j, kexes, offered, hostPrefs, hosts, offeredHosts)
    ensures match KexFrom(wanted, kexes, offered, hostPrefs, hosts, offeredHosts)
            case Agreed((k, h)) =>
              && j < |wanted| && wanted[j] in offered && FirstIn(KexNames(kexes), [wanted[j]]) == Some(k)
              && HostFor(hostPrefs, hosts, kexes[k], offeredHosts) == Agreed(h)
              && h < |hosts| && hosts[h].name in offeredHosts
              && (kexes[k].reqEncHostkey ==> hosts[h].encrypt) && (kexes[k].reqSignHostkey ==> hosts[h].sigVerify)
            case Refused => j < |wanted| ==> wanted[j] in offered && wanted[j] !in KexNames(kexes)
            case Overrun =>
              && hostPrefs == None && j < |wanted| && wanted[j] in offered
              && var k := FirstIn(KexNames(kexes), [wanted[j]]);
              && k.Some?
              && forall h <- hosts | h.name in offeredHosts ::
                   (kexes[k.value].reqEncHostkey && !h.encrypt) || (kexes[k.value].reqSignHostkey && !h.sigVerify)
  {
    hide HostFor;
    j := 0;
    if wanted != [] {
      assert wanted[0] in [wanted[0]];
      var k := FirstIn(KexNames(kexes), [wanted[0]]);
      if k.Some? {
        HostServes(hostPrefs, hosts, kexes[k.value], offeredHosts);
      }
      if !(wanted[0] in offered && (k == None || HostFor(hostPrefs, hosts, kexes[k.value], offeredHosts) != Refused)) {
        j := FirstKexWithHost(wanted[1..], kexes, offered, hostPrefs, hosts, offeredHosts);
        NoneSettlesYet(wanted, j, kexes, offered, hostPrefs, hosts, offeredHosts);
        j := j + 1;
      }
    }
  }

  /** What both sides will use, as positions in the client's tables. */
  datatype Terms = Terms(kex: nat, hostkey: nat, cryptCs: nat, cryptSc: nat, macCs: nat, macSc: nat, compCs: nat, compSc: nat)

  /** The names in each of the lists found in a packet. */
  function Offered(data: seq<byte>, spans: seq<Span>): (o: seq<seq<Name>>)
    requires Inside(data, spans)
    ensures |o| == |spans| && forall i | 0 <= i < |spans| :: o[i] == Seen(data[spans[i].at..spans[i].at + spans[i].len])
  {
    seq(|spans|, i requires 0 <= i < |spans| => Seen(data[spans[i].at..spans[i].at + spans[i].len]))
  }

  /** Agreement with a server that offers these lists (the last two, of languages, are not looked at). */
  function Negotiated(prefs: Preferences, kexes: seq<KexMethod>, hosts: seq<HostMethod>, offers: seq<seq<Name>>): Outcome<Terms>
    requires |offers| == 10
  {
    match KexFrom(Choices(prefs.kex), kexes, offers[0], prefs.hostkey.prefs, hosts, offers[1])
    case Refused => Refused
    case Overrun => Overrun
    case Agreed((k, h)) =>
      var c1, c2 := Chosen(prefs.cryptCs, offers[2]), Chosen(prefs.cryptSc, offers[3]);
      var m1, m2 := Chosen(prefs.macCs, offers[4]), Chosen(prefs.macSc, offers[5]);
      var z1, z2 := Chosen(prefs.compCs, offers[6]), Chosen(prefs.compSc, offers[7]);
      if c1 == None || c2 == None || m1 == None || m2 == None || z1 == None || z2 == None then Refused
      else Agreed(Terms(k, h, c1.value, c2.value, m1.value, m2.value, z1.value, z2.value))
  }

  /** Agreement as a whole, when the client knows all its choices of key exchange and host key. What is agreed
      on is on both sides' lists, and the host key method can do what the key exchange needs; a key exchange
      is passed over, and none is found, only for want of such a host key method; the others are agreed on
      over the third to eighth lists. */
  lemma AgreedTerms(prefs: Preferences, kexes: seq<KexMethod>, hosts: seq<HostMethod>, offers: seq<seq<Name>>)
    requires |offers| == 10 && prefs.kex.methods == KexNames(kexes) && prefs.hostkey.methods == HostNames(hosts)
    requires Known(prefs.kex) && Known(prefs.hostkey)
    ensures var all, both := Choices(prefs.kex), Choices(prefs.hostkey);
            match Negotiated(prefs, kexes, hosts, offers)
            case Agreed(t) =>
              && t.kex < |kexes| && t.hostkey < |hosts| && hosts[t.hostkey].name in both && hosts[t.hostkey].name in offers[1]
              && (kexes[t.kex].reqEncHostkey ==> hosts[t.hostkey].encrypt)
              && (kexes[t.kex].reqSignHostkey ==> hosts[t.hostkey].sigVerify)
              && Chosen(prefs.cryptCs, offers[2]) == Some(t.cryptCs) && Chosen(prefs.cryptSc, offers[3]) == Some(t.cryptSc)
              && Chosen(prefs.macCs, offers[4]) == Some(t.macCs) && Chosen(prefs.macSc, offers[5]) == Some(t.macSc)
              && Chosen(prefs.compCs, offers[6]) == Some(t.compCs) && Chosen(prefs.compSc, offers[7]) == Some(t.compSc)
              && exists j | 0 <= j < |all| ::
                   && all[j] == kexes[t.kex].name && all[j] in offers[0]
                   && forall i, m | 0 <= i < j && all[i] in offers[0] && m in both && m in offers[1] ::
                        var k, h := FirstIn(KexNames(kexes), [all[i]]), FirstIn(HostNames(hosts), [m]);
                        && k.Some? && h.Some?
                        && (|| (kexes[k.value].reqEncHostkey && !hosts[h.value].encrypt)
                            || (kexes[k.value].reqSignHostkey && !hosts[h.value].sigVerify))
            case Refused =>
              || (exists i | 2 <= i < 8 :: Chosen(prefs.Ten()[i], offers[i]) == None)
              || forall n, m | n in all && n in offers[0] && m in both && m in offers[1] ::
                   var k, h := FirstIn(KexNames(kexes), [n]), FirstIn(HostNames(hosts), [m]);
                   && k.Some? && h.Some?
                   && (|| (kexes[k.value].reqEncHostkey && !hosts[h.value].encrypt)
                       || (kexes[k.value].reqSignHostkey && !hosts[h.value].sigVerify))
            case Overrun =>
              prefs.hostkey.prefs == None && exists k <- kexes | k.name in all && k.name in offers[0] ::
                forall h <- hosts | h.name in offers[1] ::
                  (k.reqEncHostkey && !h.encrypt) || (k.reqSignHostkey && !h.sigVerify)
  {
    hide Chosen, HostFor, Wanted;
    var all := Choices(prefs.kex);
    var j := FirstKexWithHost(all, kexes, offers[0], prefs.hostkey.prefs, hosts, offers[1]);
    if j < |all| && all[j] in KexNames(kexes) {
      assert all[j] in [all[j]];
      HostServes(prefs.hostkey.prefs, hosts, kexes[FirstIn(KexNames(kexes), [all[j]]).value], offers[1]);
    }
    forall i, m | 0 <= i < j && all[i] in offers[0] && m in Choices(prefs.hostkey) && m in offers[1]
      ensures var k, h := FirstIn(KexNames(kexes), [all[i]]), FirstIn(HostNames(hosts), [m]);
              k.Some? && h.Some? && !Suits(kexes[k.value], hosts[h.value])
    {
      NobodySuits(prefs.hostkey, hosts, kexes[FirstIn(KexNames(kexes), [all[i]]).value], offers[1], m);
    }
  }

  /** The search for a host key comes back empty: the choice cannot do what is needed. */
  lemma NobodySuits(c: Choice, hosts: seq<HostMethod>, k: KexMethod, offered: seq<Name>, m: Name)
    requires c.methods == HostNames(hosts) && Known(c) && HostFor(c.prefs, hosts, k, offered) == Refused
    requires m in Choices(c) && m in offered
    ensures var h := FirstIn(HostNames(hosts), [m]); h.Some? && !Suits(k, hosts[h.value])
  {
    HostServes(c.prefs, hosts, k, offered);
    var j := HostSearch(Choices(c), hosts, k, offered);
  }

  /** The server's first choice is the method agreed on. */
  predicate Guessed(offered: seq<Name>, kexes: seq<KexMethod>, k: nat) {
    k < |kexes| && offered != [] && offered[0] == kexes[k].name
  }

  /** The part of a session that agreement works on. */
  class Negotiation {
    const prefs: Preferences
    const kexes: seq<KexMethod>
    const hosts: seq<HostMethod>
    var kex: Option<nat>
    var hostkey: Option<nat>
    var cryptCs: Option<nat>
    var cryptSc: Option<nat>
    var macCs: Option<nat>
    var macSc: Option<nat>
    var compCs: Option<nat>
    var compSc: Option<nat>
    var burnOptimisticKexinit: bool

    constructor (prefs: Preferences, kexes: seq<KexMethod>, hosts: seq<HostMethod>)
      ensures this.prefs == prefs && this.kexes == kexes && this.hosts == hosts
    {
      this.prefs, this.kexes, this.hosts := prefs, kexes, hosts;
      kex, hostkey, cryptCs, cryptSc, macCs, macSc, compCs, compSc := None, None, None, None, None, None, None, None;
      burnOptimisticKexinit := false;
    }

    /** The tables hold different names, fit for lists, and are what the preferences fall back on. */
    predicate Sound() {
      && (forall c <- prefs.Ten() :: Usable(c))
      && prefs.kex.methods == KexNames(kexes) && prefs.hostkey.methods == HostNames(hosts)
      && (forall i, j | 0 <= i < j < |kexes| :: kexes[i].name != kexes[j].name)
    }

    /** With the key exchange settled on a name, at `at` in the server's list: is there a host key? */
    method TryKex(k: nat, at: nat, hostMem: seq<byte>, hostLen: nat) returns (r: Outcome<nat>)
      requires Sound() && k < |kexes| && hostLen < |hostMem| && hostMem[hostLen] == NUL
      modifies this`kex, this`hostkey, this`burnOptimisticKexinit
      ensures r == HostFor(prefs.hostkey.prefs, hosts, kexes[k], Seen(hostMem[..hostLen]))
      ensures if r.Agreed?
              then kex == Some(k) && hostkey == Some(r.value) && burnOptimisticKexinit == (old(burnOptimisticKexinit) && at != 0)
              else kex == old(kex) && hostkey == old(hostkey) && burnOptimisticKexinit == old(burnOptimisticKexinit)
    {
      assert prefs.hostkey in prefs.Ten();
      assert forall i | 0 <= i < |hosts| :: hosts[i].name == prefs.hostkey.methods[i];
      r := AgreeHostkey(prefs.hostkey.prefs, hosts, kexes[k], hostMem, hostLen);
      if r.Agreed? {
        hostkey := Some(r.value);
        kex := Some(k);
        if burnOptimisticKexinit && at == 0 {
          burnOptimisticKexinit := false;
        }
      }
    }

    /** What is agreed on is recorded, and an optimistic packet is kept only if the server guessed it. */
    twostate predicate Recorded(new r: Outcome<(nat, nat)>, offered: seq<Name>)
      reads this
    {
      if r.Agreed? then
        && r.value.0 < |kexes| && kex == Some(r.value.0) && hostkey == Some(r.value.1)
        && burnOptimisticKexinit == (old(burnOptimisticKexinit) && !Guessed(offered, kexes, r.value.0))
      else kex == old(kex) && hostkey == old(hostkey) && burnOptimisticKexinit == old(burnOptimisticKexinit)
    }

    /** `libssh2_kex_agree_kex_hostkey`. */
    method AgreeKexHostkey(kexMem: seq<byte>, kexLen: nat, hostMem: seq<byte>, hostLen: nat) returns (r: Outcome<(nat, nat)>)
      requires Sound()
      requires kexLen < |kexMem| && kexMem[kexLen] == NUL && hostLen < |hostMem| && hostMem[hostLen] == NUL
      modifies this`kex, this`hostkey, this`burnOptimisticKexinit
      ensures r == KexFrom(Choices(prefs.kex), kexes, Seen(kexMem[..kexLen]),
                           prefs.hostkey.prefs, hosts, Seen(hostMem[..hostLen]))
      ensures Recorded(r, Seen(kexMem[..kexLen]))
    {
      assert prefs.kex in prefs.Ten();
      if prefs.kex.prefs.Some? {
        r := AgreeWantedKex(prefs.kex.prefs.value, kexMem, kexLen, hostMem, hostLen);
      } else {
        r := AgreeKexInTable(kexMem, kexLen, hostMem, hostLen);
      }
    }

    /** Its first loop (lines 1310-1346). */
    method AgreeWantedKex(text: seq<byte>, kexMem: seq<byte>, kexLen: nat, hostMem: seq<byte>, hostLen: nat)
      returns (r: Outcome<(nat, nat)>)
      requires Sound() && NUL !in text
      requires kexLen < |kexMem| && kexMem[kexLen] == NUL && hostLen < |hostMem| && hostMem[hostLen] == NUL
      modifies this`kex, this`hostkey, this`burnOptimisticKexinit
      ensures r == KexFrom(Wanted(text), kexes, Seen(kexMem[..kexLen]), prefs.hostkey.prefs, hosts, Seen(hostMem[..hostLen]))
      ensures Recorded(r, Seen(kexMem[..kexLen]))
    {
      hide Wanted, Seen, HostFor, Negotiation.Sound;
      ghost var offered, offeredHosts := Seen(kexMem[..kexLen]), Seen(hostMem[..hostLen]);
      ghost var rest := Wanted(text);
      ghost var goal := KexFrom(rest, kexes, offered, prefs.hostkey.prefs, hosts, offeredHosts);
      var s: Option<nat> := Some(0);
      assert text[0..] == text;
      WantedNothing(text);
      while s.Some? && s.value < |text|
        invariant s.Some? ==> s.value <= |text|
        invariant rest == if s == None then [] else Wanted(text[s.value..])
        invariant goal == KexFrom(rest, kexes, offered, prefs.hostkey.prefs, hosts, offeredHosts)
        invariant kex == old(kex) && hostkey == old(hostkey) && burnOptimisticKexinit == old(burnOptimisticKexinit)
        decreases if s.Some? then |text| - s.value + 1 else 0
      {
        var methodLen, next := TakeName(text, s.value);
        var name := text[s.value..s.value + methodLen];
        var q := AgreeInstr(kexMem, kexLen, name);
        if q.Some? {
          var k := GetMethodByName(name, KexNames(kexes));
          if k == None {
            return Refused;
          }
          var h := TryKex(k.value, q.value, hostMem, hostLen);
          if h.Agreed? {
            return Agreed((k.value, h.value));
          }
          if h.Overrun? {
            return Overrun;
          }
        }
        assert rest[1..] == if next == None then [] else Wanted(text[next.value..]);
        s, rest := next, rest[1..];
      }
      return Refused;
    }

    /** Its second loop (lines 1348-1370). */
    method AgreeKexInTable(kexMem: seq<byte>, kexLen: nat, hostMem: seq<byte>, hostLen: nat) returns (r: Outcome<(nat, nat)>)
      requires Sound()
      requires kexLen < |kexMem| && kexMem[kexLen] == NUL && hostLen < |hostMem| && hostMem[hostLen] == NUL
      modifies this`kex, this`hostkey, this`burnOptimisticKexinit
      ensures r == KexFrom(KexNames(kexes), kexes, Seen(kexMem[..kexLen]), prefs.hostkey.prefs, hosts, Seen(hostMem[..hostLen]))
      ensures Recorded(r, Seen(kexMem[..kexLen]))
    {
      hide Seen, HostFor, Negotiation.Sound;
      KexTable();
      ghost var offered, offeredHosts := Seen(kexMem[..kexLen]), Seen(hostMem[..hostLen]);
      ghost var names := KexNames(kexes);
      ghost var goal := KexFrom(names, kexes, offered, prefs.hostkey.prefs, hosts, offeredHosts);
      assert names[0..] == names;
      var i := 0;
      while i < |kexes|
        invariant i <= |kexes|
        invariant goal == KexFrom(names[i..], kexes, offered, prefs.hostkey.prefs, hosts, offeredHosts)
        invariant kex == old(kex) && hostkey == old(hostkey) && burnOptimisticKexinit == old(burnOptimisticKexinit)
      {
        assert names[i..][0] == kexes[i].name && names[i..][1..] == names[i + 1..];
        var q := AgreeInstr(kexMem, kexLen, kexes[i].name);
        if q.Some? {
          FirstInIs(names, [kexes[i].name], i);
          var h := TryKex(i, q.value, hostMem, hostLen);
          if h.Agreed? {
            return Agreed((i, h.value));
          }
          if h.Overrun? {
            return Overrun;
          }
        }
        i := i + 1;
      }
      return Refused;
    }
  
    /** The list at hand and what is behind it in memory. */
    static method ListAt(data: seq<byte>, spans: seq<Span>, i: nat) returns (mem: seq<byte>, len: nat)
      requires |data| < 0x100_0000 && Find(data, 17, 10) == Some(spans) && i < 9
      ensures len < |mem| && mem[len] == NUL && Seen(mem[..len]) == Offers(data)[i]
    {
      hide Find, Seen;
      FollowedByNul(data, 17, 10, i);
      mem, len := data[spans[i].at..], spans[i].len;
      assert mem[..len] == data[spans[i].at..spans[i].at + len];
    }

    /** Lines 1612-1628: ciphers, MACs and compression for both directions. */
    method AgreeSix(data: seq<byte>, spans: seq<Span>) returns (ok: bool)
      requires Sound() && |data| < 0x100_0000 && Find(data, 17, 10) == Some(spans)
      modifies this`cryptCs, this`cryptSc, this`macCs, this`macSc, this`compCs, this`compSc
      ensures var offers := Offers(data);
              var c1, c2 := Chosen(prefs.cryptCs, offers[2]), Chosen(prefs.cryptSc, offers[3]);
              var m1, m2 := Chosen(prefs.macCs, offers[4]), Chosen(prefs.macSc, offers[5]);
              var z1, z2 := Chosen(prefs.compCs, offers[6]), Chosen(prefs.compSc, offers[7]);
              && ok == (c1.Some? && c2.Some? && m1.Some? && m2.Some? && z1.Some? && z2.Some?)
              && (ok ==> cryptCs == c1 && cryptSc == c2 && macCs == m1 && macSc == m2 && compCs == z1 && compSc == z2)
    {
      hide Seen, Find, Chosen, Offers, Negotiation.Sound, Usable, Inside;
      TenUsable();
      var mem, len := ListAt(data, spans, 2);
      cryptCs := AgreeName(prefs.cryptCs, mem, len);
      if cryptCs == None {
        return false;
      }
      mem, len := ListAt(data, spans, 3);
      cryptSc := AgreeName(prefs.cryptSc, mem, len);
      if cryptSc == None {
        return false;
      }
      mem, len := ListAt(data, spans, 4);
      macCs := AgreeName(prefs.macCs, mem, len);
      if macCs == None {
        return false;
      }
      mem, len := ListAt(data, spans, 5);
      macSc := AgreeName(prefs.macSc, mem, len);
      if macSc == None {
        return false;
      }
      mem, len := ListAt(data, spans, 6);
      compCs := AgreeName(prefs.compCs, mem, len);
      if compCs == None {
        return false;
      }
      mem, len := ListAt(data, spans, 7);
      compSc := AgreeName(prefs.compSc, mem, len);
      if compSc == None {
        return false;
      }
      return true;
    }

    /** What key exchange and host key come to. */
    ghost function KexAndHost(data: seq<byte>): Outcome<(nat, nat)>
      requires Find(data, 17, 10).Some?
    {
      KexFrom(Choices(prefs.kex), kexes, Offers(data)[0], prefs.hostkey.prefs, hosts, Offers(data)[1])
    }

    /** `libssh2_kex_agree_methods` on a packet shorter than 2^24 bytes. Though it refuses, it may have set
        key exchange and host key. */
    method AgreeMethods(data: seq<byte>) returns (r: Outcome<Terms>)
      requires Sound() && |data| < 0x100_0000
      modifies this
      ensures Find(data, 17, 10) == None ==> r == Refused
      ensures Find(data, 17, 10).Some? ==> r == Negotiated(prefs, kexes, hosts, Offers(data))
      ensures Find(data, 17, 10) == None ==> !burnOptimisticKexinit && kex == old(kex) && hostkey == old(hostkey)
      ensures Find(data, 17, 10).Some? ==>
                var two := KexAndHost(data);
                && burnOptimisticKexinit ==
                     (FirstFollows(data, Find(data, 17, 10).value) &&
                      !(two.Agreed? && Guessed(Offers(data)[0], kexes, two.value.0)))
                && kex == (if two.Agreed? then Some(two.value.0) else old(kex))
                && hostkey == (if two.Agreed? then Some(two.value.1) else old(hostkey))
      ensures r.Agreed? ==>
                && kex == Some(r.value.kex) && hostkey == Some(r.value.hostkey)
                && cryptCs == Some(r.value.cryptCs) && cryptSc == Some(r.value.cryptSc)
                && macCs == Some(r.value.macCs) && macSc == Some(r.value.macSc)
                && compCs == Some(r.value.compCs) && compSc == Some(r.value.compSc)
    {
      hide Seen, Find, KexFrom, Chosen, Offers, Negotiation.Sound, Usable, Guessed, Inside;
      var found, burn := Locate(data);
      burnOptimisticKexinit := burn;
      if found == None {
        return Refused;
      }
      var spans := found.value;
      var kexMem, kexLen := ListAt(data, spans, 0);
      var hostMem, hostLen := ListAt(data, spans, 1);
      var methods := AgreeKexHostkey(kexMem, kexLen, hostMem, hostLen);
      if !methods.Agreed? {
        return if methods.Refused? then Refused else Overrun;
      }
      var rest := AgreeSix(data, spans);
      if !rest {
        return Refused;
      }
      var (k, h) := methods.value;
      return Agreed(Terms(k, h, cryptCs.value, cryptSc.value, macCs.value, macSc.value, compCs.value, compSc.value));
    }

    lemma KexTable()
      requires Sound()
      ensures forall i | 0 <= i < |kexes| :: Plain(kexes[i].name)
      ensures forall i, j | 0 <= i < j < |kexes| :: kexes[i].name != kexes[j].name
    {
      assert prefs.kex in prefs.Ten();
      assert forall i | 0 <= i < |kexes| :: kexes[i].name == prefs.kex.methods[i];
    }

    lemma TenUsable()
      requires Sound()
      ensures Usable(prefs.cryptCs) && Usable(prefs.cryptSc) && Usable(prefs.macCs) && Usable(prefs.macSc)
      ensures Usable(prefs.compCs) && Usable(prefs.compSc)
    {
      var ten := prefs.Ten();
      assert ten[2] == prefs.cryptCs && ten[3] == prefs.cryptSc && ten[4] == prefs.macCs && ten[5] == prefs.macSc;
      assert ten[6] == prefs.compCs && ten[7] == prefs.compSc;
    }
  }

  /** The names in the ten lists of a packet. */
  function Offers(data: seq<byte>): (o: seq<seq<Name>>)
    requires Find(data, 17, 10).Some?
    ensures |o| == 10
  {
    Offered(data, Find(data, 17, 10).value)
  }

  lemma FindStep(data: seq<byte>, at: nat, count: nat)
    ensures Find(data, at, count) ==
              if count == 0 then
                if at < |data| then Some([]) else None
              else if at + 4 > |data| || at + 4 + U32Of(data[at..]) > |data| then None
              else
                var rest := Find(data, at + 4 + U32Of(data[at..]), count - 1);
                if rest == None then None else Some([Span(at + 4, U32Of(data[at..]))] + rest.value)
  {
  }

  /** The flag behind the ten lists: a packet guessed by the server follows. */
  predicate FirstFollows(data: seq<byte>, spans: seq<Span>)
    requires |spans| == 10 && Inside(data, spans)
  {
    data[spans[9].at + spans[9].len] != 0
  }

  /** Lines 1560-1605: where the lists are, and the flag behind them. */
  method Locate(data: seq<byte>) returns (r: Option<seq<Span>>, burn: bool)
    ensures r == Find(data, 17, 10)
    ensures burn == (r.Some? && data[r.value[9].at + r.value[9].len] != 0)
  {
    hide Find, Inside, U32Of;
    var s: nat, spans: seq<Span>, i: nat := 17, [], 0;
    assert forall rest: seq<Span> :: spans + rest == rest;
    while i < 10
      invariant i == |spans| <= 10
      invariant i > 0 ==> s == spans[i - 1].at + spans[i - 1].len
      invariant var rest := Find(data, s, 10 - i);
                Find(data, 17, 10) == if rest == None then None else Some(spans + rest.value)
    {
      FindStep(data, s, 10 - i);
      if s + 4 > |data| || s + 4 + U32Of(data[s..]) > |data| {
        return None, false;
      }
      var len := U32Of(data[s..]);
      ghost var rest := Find(data, s + 4 + len, 9 - i);
      assert rest.Some? ==> spans + ([Span(s + 4, len)] + rest.value) == spans + [Span(s + 4, len)] + rest.value;
      spans := spans + [Span(s + 4, len)];
      s := s + 4 + len;
      i := i + 1;
    }
    FindStep(data, s, 0);
    if s >= |data| {
      return None, false;
    }
    assert spans + [] == spans;
    return Some(spans), data[s] != 0;
  }

  /** The choice makes a list that names something and does not end in a comma. */
  predicate Announces(c: Choice) {
    Usable(c) && if c.prefs.Some? then c.prefs.value != [] && c.prefs.value[|c.prefs.value| - 1] != COMMA else c.methods != []
  }

  /** A peer that sends the packet `KexInit.Build` makes is taken to offer exactly its own choices. */
  lemma PeerOffersItsChoices(server: Preferences, cookie: seq<byte>, i: nat)
    requires |cookie| == 16 && i < 10 && Announces(server.Ten()[i])
    requires forall c <- server.Ten() :: |Intended(c)| < TWO32
    ensures var data := Packet(cookie, Offer(server.Ten()));
            Find(data, 17, 10).Some? && Offers(data)[i] == Choices(server.Ten()[i])
  {
    hide Find, Seen, Intended, Choices;
    ListsRoundTrip(server, cookie);
    OffersItsChoices(server.Ten()[i]);
  }

  /** Between two such peers: the method for a list is the client's first choice that is also one of the
      server's, and there is one just when they have one in common. */
  lemma PeersAgreeOnFirstCommon(client: Choice, server: Preferences, cookie: seq<byte>, i: nat)
    requires |cookie| == 16 && i < 10 && Announces(server.Ten()[i]) && Known(client)
    requires forall c <- server.Ten() :: |Intended(c)| < TWO32
    ensures var data := Packet(cookie, Offer(server.Ten()));
            && Find(data, 17, 10).Some?
            && var r, theirs := Chosen(client, Offers(data)[i]), Choices(server.Ten()[i]);
            && (r.Some? <==> exists n <- Choices(client) :: n in theirs)
            && (r.Some? ==>
                  && r.value < |client.methods|
                  && exists k | 0 <= k < |Choices(client)| ::
                       Choices(client)[k] == client.methods[r.value] && Choices(client)[k] in theirs &&
                       forall j | 0 <= j < k :: Choices(client)[j] !in theirs)
  {
    hide Find, Seen, Intended, Choices, Chosen, Offers;
    PeerOffersItsChoices(server, cookie, i);
    FirstCommonChoice(client, Choices(server.Ten()[i]));
  }
}
