/** File attributes as SFTP blocks (sftp.c:385-494). */
module SftpAttrs {
  import opened Bytes
  import opened Brigade
  import opened Cipher

  const SIZE := 1
  const UIDGID := 2
  const PERMISSIONS := 4
  const ACMODTIME := 8

  datatype Attrs = Attrs(flags: u32, filesize: u64, uid: u32, gid: u32, permissions: u32, atime: u32, mtime: u32) {
    /** `flags & bit`. */
    predicate Has(bit: nat)
      requires bit > 0
    {
      flags / bit % 2 == 1
    }
  }

  /** The fields, each there if it is flagged. */
  function SizeField(a: Attrs): (s: seq<byte>)
    ensures |s| == if a.Has(SIZE) then 8 else 0
  {
    if a.Has(SIZE) then U64Bytes(a.filesize) else []
  }

  function OwnerField(a: Attrs): (s: seq<byte>)
    ensures |s| == if a.Has(UIDGID) then 8 else 0
  {
    if a.Has(UIDGID) then U32Bytes(a.uid) + U32Bytes(a.gid) else []
  }

  function ModeField(a: Attrs): (s: seq<byte>)
    ensures |s| == if a.Has(PERMISSIONS) then 4 else 0
  {
    if a.Has(PERMISSIONS) then U32Bytes(a.permissions) else []
  }

  function TimesField(a: Attrs): (s: seq<byte>)
    ensures |s| == if a.Has(ACMODTIME) then 8 else 0
  {
    if a.Has(ACMODTIME) then U32Bytes(a.atime) + U32Bytes(a.mtime) else []
  }

  /** The block for attributes, or for a NULL pointer: the known flags, then only the fields flagged. */
  function Block(attrs: Option<Attrs>): seq<byte> {
    match attrs
    case None => U32Bytes(0)
    case Some(a) =>
      U32Bytes(a.flags % 16) + (SizeField(a) + (OwnerField(a) + (ModeField(a) + TimesField(a))))
  }

  /** `libssh2_sftp_attrsize`. */
  method AttrSize(attrs: Option<Attrs>) returns (attrsize: nat)
    ensures attrsize == |Block(attrs)|
  {
    attrsize := 4;
    if attrs == None {
      return;
    }
    var a := attrs.value;
    if a.Has(SIZE) {
      attrsize := attrsize + 8;
    }
    if a.Has(UIDGID) {
      attrsize := attrsize + 8;
    }
    if a.Has(PERMISSIONS) {
      attrsize := attrsize + 4;
    }
    if a.Has(ACMODTIME) {
      attrsize := attrsize + 8;
    }
  }

  /** Two values one after the other. */
  method StorePair(p: array<byte>, at: nat, v: u32, w: u32)
    requires at + 8 <= p.Length
    modifies p
    ensures p[..] == Splice(old(p[..]), at, U32Bytes(v) + U32Bytes(w))
  {
    hide Splice, U32Bytes;
    ghost var was := p[..];
    StoreU32(p, at, v);
    SpliceMore(was, at, U32Bytes(v), U32Bytes(w));
    StoreU32(p, at + 4, w);
  }

  /** `libssh2_htonu64(p + at, v)`. */
  method StoreU64(p: array<byte>, at: nat, v: u64)
    requires at + 8 <= p.Length
    modifies p
    ensures p[..] == Splice(old(p[..]), at, U64Bytes(v))
  {
    StorePair(p, at, v / TWO32, v % TWO32);
  }

  /** `libssh2_sftp_attr2bin`: exactly the block is written, and its size answered. */
  method Attr2Bin(p: array<byte>, at: nat, attrs: Option<Attrs>) returns (n: nat)
    requires at + |Block(attrs)| <= p.Length
    modifies p
    ensures n == |Block(attrs)| && p[..] == Splice(old(p[..]), at, Block(attrs))
  {
    hide Splice, U32Bytes, U64Bytes, Attrs.Has;
    if attrs == None {
      StoreU32(p, at, 0);
      return 4;
    }
    var a := attrs.value;
    ghost var was, flags, size, owner, mode, times :=
      p[..], U32Bytes(a.flags % 16), SizeField(a), OwnerField(a), ModeField(a), TimesField(a);
    StoreU32(p, at, a.flags % 16);
    var s := at + 4;
    if a.Has(SIZE) {
      StoreU64(p, s, a.filesize);
      s := s + 8;
    }
    Extend(was, at, flags, size, p[..]);
    if a.Has(UIDGID) {
      StorePair(p, s, a.uid, a.gid);
      s := s + 8;
    }
    Extend(was, at, flags + size, owner, p[..]);
    if a.Has(PERMISSIONS) {
      StoreU32(p, s, a.permissions);
      s := s + 4;
    }
    Extend(was, at, flags + size + owner, mode, p[..]);
    if a.Has(ACMODTIME) {
      StorePair(p, s, a.atime, a.mtime);
      s := s + 8;
    }
    Extend(was, at, flags + size + owner + mode, times, p[..]);
    Regroup(flags, size, owner, mode, times);
    return s - at;
  }

  lemma Regroup(a: seq<byte>, b: seq<byte>, c: seq<byte>, d: seq<byte>, e: seq<byte>)
    ensures a + b + c + d + e == a + (b + (c + (d + e)))
  {
  }

  /** More is stored behind what is there, or nothing. */
  lemma Extend(was: seq<byte>, at: nat, done: seq<byte>, more: seq<byte>, now: seq<byte>)
    requires at + |done| + |more| <= |was|
    requires now == if more == [] then Splice(was, at, done) else Splice(Splice(was, at, done), at + |done|, more)
    ensures now == Splice(was, at, done + more)
  {
    SpliceMore(was, at, done, more);
    assert done + [] == done;
  }

  /** What is read from a block, and how long the block is; None if it is cut short. */
  function Read(s: seq<byte>): Option<(Attrs, nat)> {
    if |s| < 4 then None else
    var f := Attrs(U32Of(s), 0, 0, 0, 0, 0, 0);
    var n1 := 4;
    var n2 := n1 + if f.Has(SIZE) then 8 else 0;
    var n3 := n2 + if f.Has(UIDGID) then 8 else 0;
    var n4 := n3 + if f.Has(PERMISSIONS) then 4 else 0;
    var n5 := n4 + if f.Has(ACMODTIME) then 8 else 0;
    if |s| < n5 then None else
    Some((Attrs(f.flags,
                if f.Has(SIZE) then U64Of(s[n1..]) else 0,
                if f.Has(UIDGID) then U32Of(s[n2..]) else 0,
                if f.Has(UIDGID) then U32Of(s[n2 + 4..]) else 0,
                if f.Has(PERMISSIONS) then U32Of(s[n3..]) else 0,
                if f.Has(ACMODTIME) then U32Of(s[n4..]) else 0,
                if f.Has(ACMODTIME) then U32Of(s[n4 + 4..]) else 0), n5))
  }

  /** `libssh2_sftp_bin2attr` on a block that is all there. */
  method Bin2Attr(p: seq<byte>) returns (attrs: Attrs, n: nat)
    requires Read(p).Some?
    ensures Read(p) == Some((attrs, n))
  {
    hide U32Of, U64Of;
    var s := 4;
    attrs := Attrs(U32Of(p), 0, 0, 0, 0, 0, 0);
    var f := attrs;
    if f.Has(SIZE) {
      attrs := attrs.(filesize := U64Of(p[s..]));
      s := s + 8;
    }
    if f.Has(UIDGID) {
      attrs := attrs.(uid := U32Of(p[s..]));
      s := s + 4;
      attrs := attrs.(gid := U32Of(p[s..]));
      s := s + 4;
    }
    if f.Has(PERMISSIONS) {
      attrs := attrs.(permissions := U32Of(p[s..]));
      s := s + 4;
    }
    if f.Has(ACMODTIME) {
      attrs := attrs.(atime := U32Of(p[s..]));
      s := s + 4;
      attrs := attrs.(mtime := U32Of(p[s..]));
      s := s + 4;
    }
    n := s;
  }

  /** What is left of attributes on the wire: the known flags and the fields they announce. */
  function Carried(a: Attrs): Attrs {
    Attrs(a.flags % 16,
          if a.Has(SIZE) then a.filesize else 0,
          if a.Has(UIDGID) then a.uid else 0,
          if a.Has(UIDGID) then a.gid else 0,
          if a.Has(PERMISSIONS) then a.permissions else 0,
          if a.Has(ACMODTIME) then a.atime else 0,
          if a.Has(ACMODTIME) then a.mtime else 0)
  }

  /** A bit below the fifth is that of the remainder. */
  lemma BitKept(f: nat, bit: nat, rest: nat)
    requires bit > 0 && bit * rest * 2 == 16
    ensures f / bit % 2 == f % 16 / bit % 2
  {
    var q, r := f / 16, f % 16;
    var d, m := r / bit, r % bit;
    assert f == 16 * q + r && r == d * bit + m;
    assert f == (rest * 2 * q + d) * bit + m;
    DivMod(f, rest * 2 * q + d, m, bit);
    DivMod(rest * 2 * q + d, rest * q + d / 2, d % 2, 2);
  }

  lemma FlagsKept(a: Attrs, b: Attrs)
    requires b.flags == a.flags % 16
    ensures a.Has(SIZE) == b.Has(SIZE) && a.Has(UIDGID) == b.Has(UIDGID)
    ensures a.Has(PERMISSIONS) == b.Has(PERMISSIONS) && a.Has(ACMODTIME) == b.Has(ACMODTIME)
  {
    BitKept(a.flags, 1, 8);
    BitKept(a.flags, 2, 4);
    BitKept(a.flags, 4, 2);
    BitKept(a.flags, 8, 1);
  }

  lemma WordBack(v: u32, w: u32, rest: seq<byte>)
    ensures U32Of(U32Bytes(v) + rest) == v
    ensures U32Of((U32Bytes(v) + U32Bytes(w)) + rest) == v && U32Of(((U32Bytes(v) + U32Bytes(w)) + rest)[4..]) == w
  {
    hide U32Of, U32Bytes;
    U32RoundTrip(v, rest);
    var s := (U32Bytes(v) + U32Bytes(w)) + rest;
    assert s == U32Bytes(v) + (U32Bytes(w) + rest);
    U32RoundTrip(v, U32Bytes(w) + rest);
    assert s[4..] == U32Bytes(w) + rest;
    U32RoundTrip(w, rest);
  }

  lemma Slices(a: seq<byte>, b: seq<byte>, c: seq<byte>, d: seq<byte>, e: seq<byte>, rest: seq<byte>)
    ensures var s := a + (b + (c + (d + e))) + rest;
            && s == a + (b + (c + (d + (e + rest))))
            && s[|a|..] == b + (c + (d + (e + rest)))
            && s[|a| + |b|..] == c + (d + (e + rest))
            && s[|a| + |b| + |c|..] == d + (e + rest)
            && s[|a| + |b| + |c| + |d|..] == e + rest
  {
  }

  lemma Further(s: seq<byte>, n: nat, t: seq<byte>)
    requires n + 4 <= |s| && s[n..] == t
    ensures s[n + 4..] == t[4..]
  {
  }

  /** What was written is read back, whatever follows it, and as much is read as was written. */
  lemma ReadBack(a: Attrs, rest: seq<byte>)
    ensures Read(Block(Some(a)) + rest) == Some((Carried(a), |Block(Some(a))|))
  {
    hide U32Of, U32Bytes, U64Of, U64Bytes, Attrs.Has;
    var size, owner, mode, times := SizeField(a), OwnerField(a), ModeField(a), TimesField(a);
    var s := Block(Some(a)) + rest;
    Slices(U32Bytes(a.flags % 16), size, owner, mode, times, rest);
    var s4 := times + rest;
    var s3 := mode + s4;
    var s2 := owner + s3;
    U32RoundTrip(a.flags % 16, size + s2);
    FlagsKept(a, Attrs(U32Of(s), 0, 0, 0, 0, 0, 0));
    var n2 := 4 + |size|;
    var n4 := n2 + |owner| + |mode|;
    U64RoundTrip(a.filesize, s2);
    WordBack(a.uid, a.gid, s3);
    WordBack(a.permissions, 0, s4);
    WordBack(a.atime, a.mtime, rest);
    if a.Has(UIDGID) {
      Further(s, n2, s2);
    }
    if a.Has(ACMODTIME) {
      Further(s, n4, s4);
    }
  }

  /** The block byte by byte: flags, and behind them size, owner, mode and times, those that the bits 1, 2, 4
      and 8 announce. */
  lemma BlockLayout(a: Attrs)
    ensures var s := Block(Some(a));
            var size, owner, mode, times := a.flags % 2 == 1, a.flags / 2 % 2 == 1, a.flags / 4 % 2 == 1, a.flags / 8 % 2 == 1;
            var o := 4 + if size then 8 else 0;
            var m := o + if owner then 8 else 0;
            var t := m + if mode then 4 else 0;
            && |s| == t + (if times then 8 else 0) && U32Of(s) == a.flags % 16
            && (size ==> U64Of(s[4..]) == a.filesize)
            && (owner ==> U32Of(s[o..]) == a.uid && U32Of(s[o + 4..]) == a.gid)
            && (mode ==> U32Of(s[m..]) == a.permissions)
            && (times ==> U32Of(s[t..]) == a.atime && U32Of(s[t + 4..]) == a.mtime)
    ensures Block(None) == [0, 0, 0, 0]
  {
    BlockSize(a);
    ReadBack(a, []);
    assert Block(Some(a)) + [] == Block(Some(a));
    FlagsKept(a, a.(flags := a.flags % 16));
    hide U32Of, U64Of, Block;
  }

  lemma BlockSize(a: Attrs)
    ensures |Block(Some(a))| == 4 + (if a.flags % 2 == 1 then 8 else 0) + (if a.flags / 2 % 2 == 1 then 8 else 0) +
                                (if a.flags / 4 % 2 == 1 then 4 else 0) + (if a.flags / 8 % 2 == 1 then 8 else 0)
  {
    hide U32Bytes, U64Bytes;
  }

  /** So attributes come through unchanged just when they have no flag but the four, and nothing in a
      field that is not flagged. */
  lemma UnchangedIff(a: Attrs)
    ensures Read(Block(Some(a))) == Some((a, |Block(Some(a))|)) <==>
              && a.flags < 16
              && (a.filesize == 0 || a.Has(SIZE)) && ((a.uid == 0 && a.gid == 0) || a.Has(UIDGID))
              && (a.permissions == 0 || a.Has(PERMISSIONS)) && ((a.atime == 0 && a.mtime == 0) || a.Has(ACMODTIME))
  {
    hide Block, Read, Attrs.Has;
    assert Block(Some(a)) + [] == Block(Some(a));
    ReadBack(a, []);
  }
}
