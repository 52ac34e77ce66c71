/**
 The messages of 9P2000 byte by byte, as section 5 of the manual lays them out:
 every number with its low byte first, a string behind two bytes of length.
 */
module Wire9P {
  import opened Basics
  import opened ByteStrings
  import opened Fcall9P

  function B1(n: int): Str { [n % 256] }

  function B2(n: int): Str { [n % 256, n / 256 % 256] }

  function B4(n: int): Str { [n % 256, n / 256 % 256, n / 0x1_0000 % 256, n / 0x100_0000 % 256] }

  function B8(n: int): Str { B4(n) + B4(n / 0x1_0000_0000) }

  function S(s: Str): Str { B2(|s|) + s }

  function Q13(q: Qid): Str { B1(q.kind) + B4(q.vers) + B8(q.path) }

  lemma LeBytes(n: int)
    ensures Le(n, 1) == B1(n) && Le(n, 2) == B2(n) && Le(n, 4) == B4(n) && Le(n, 8) == B8(n)
  {
    Le4(n);
    Le4(n / 0x1_0000_0000);
    LeMore(n, 4, 4);
    Digits(n);
  }

  lemma Digits(n: int)
    ensures n / 256 / 256 == n / 0x1_0000 && n / 0x1_0000 / 256 == n / 0x100_0000 && n / 0x100_0000 / 256 == n / 0x1_0000_0000
  {
  }

  lemma Le4(n: int)
    ensures Le(n, 1) == B1(n) && Le(n, 2) == B2(n) && Le(n, 4) == B4(n)
  {
    Digits(n);
    assert Le(n / 256 / 256 / 256 / 256, 0) == [];
    assert Le(n / 256 / 256 / 256, 1) == [n / 0x100_0000 % 256];
    assert Le(n / 256 / 256, 2) == [n / 0x1_0000 % 256, n / 0x100_0000 % 256];
    assert Le(n / 256, 1) == [n / 256 % 256];
  }

  lemma LeMore(n: int, j: nat, k: nat)
    requires j == 4
    ensures Le(n, j + k) == Le(n, 4) + Le(n / 0x1_0000_0000, k)
  {
    Digits(n);
    assert n / 256 / 256 / 256 / 256 == n / 0x1_0000_0000;
    var a, b, c := n / 256, n / 256 / 256, n / 256 / 256 / 256;
    assert Le(c, 1 + k) == [c % 256] + Le(c / 256, k);
    assert Le(b, 2 + k) == [b % 256] + Le(c, 1 + k);
    assert Le(a, 3 + k) == [a % 256] + Le(b, 2 + k);
    assert Le(n, 4 + k) == [n % 256] + Le(a, 3 + k);
    Le4(n);
    assert n / 0x1_0000 == b && n / 0x100_0000 == c;
  }

  /** The message is well-formed, and these are its bytes. */
  predicate Wire(kind: byte, tag: int, fields: seq<Field>, body: Str) {
    var m := Fcall(kind, tag, fields);
    WellFormed(m) && Encode(m) == B4(7 + |body|) + [kind] + B2(tag) + body
  }

  lemma WireIs(kind: byte, tag: int, fields: seq<Field>, body: Str)
    requires 0 <= tag < 0x1_0000 && 7 + |body| < 0x1_0000_0000 && EncodeFields(fields) == body
    requires Format(kind).Some? && FitAll(Format(kind).value, fields)
    ensures Wire(kind, tag, fields, body)
  {
    LeBytes(7 + |body|);
    LeBytes(kind);
    LeBytes(tag);
    hide Le, EncodeFields, Format, FitAll;
  }

  lemma Fit1(j: Kind, a: Field)
    requires Fits(j, a)
    ensures FitAll([j], [a])
  {
    hide Fits;
    assert [j][1..] == [] && [a][1..] == [];
  }

  lemma Fit2(j: Kind, k: Kind, a: Field, b: Field)
    requires Fits(j, a) && Fits(k, b)
    ensures FitAll([j, k], [a, b])
  {
    hide Fits;
    Fit1(k, b);
    assert [j, k][1..] == [k] && [a, b][1..] == [b];
  }

  lemma Fit3(j: Kind, k: Kind, l: Kind, a: Field, b: Field, c: Field)
    requires Fits(j, a) && Fits(k, b) && Fits(l, c)
    ensures FitAll([j, k, l], [a, b, c])
  {
    hide Fits;
    Fit2(k, l, b, c);
    assert [j, k, l][1..] == [k, l] && [a, b, c][1..] == [b, c];
  }

  lemma Fit4(j: Kind, k: Kind, l: Kind, m: Kind, a: Field, b: Field, c: Field, d: Field)
    requires Fits(j, a) && Fits(k, b) && Fits(l, c) && Fits(m, d)
    ensures FitAll([j, k, l, m], [a, b, c, d])
  {
    hide Fits;
    Fit3(k, l, m, b, c, d);
    assert [j, k, l, m][1..] == [k, l, m] && [a, b, c, d][1..] == [b, c, d];
  }

  lemma Put1(a: Field)
    ensures EncodeFields([a]) == EncodeField(a)
  {
    hide EncodeField;
    assert [a][1..] == [];
  }

  lemma Put2(a: Field, b: Field)
    ensures EncodeFields([a, b]) == EncodeField(a) + EncodeField(b)
  {
    hide EncodeField;
    Put1(b);
    assert [a, b][1..] == [b];
  }

  lemma Put3(a: Field, b: Field, c: Field)
    ensures EncodeFields([a, b, c]) == EncodeField(a) + EncodeField(b) + EncodeField(c)
  {
    hide EncodeField;
    Put2(b, c);
    assert [a, b, c][1..] == [b, c];
  }

  lemma Put4(a: Field, b: Field, c: Field, d: Field)
    ensures EncodeFields([a, b, c, d]) == EncodeField(a) + EncodeField(b) + EncodeField(c) + EncodeField(d)
  {
    hide EncodeField;
    Put3(b, c, d);
    assert [a, b, c, d][1..] == [b, c, d];
  }

  lemma PutIs(f: Field)
    ensures f.I8? ==> EncodeField(f) == B1(f.n)
    ensures f.I16? ==> EncodeField(f) == B2(f.n)
    ensures f.I32? ==> EncodeField(f) == B4(f.n)
    ensures f.I64? ==> EncodeField(f) == B8(f.n)
    ensures f.Text? ==> EncodeField(f) == S(f.s)
    ensures f.AQid? ==> EncodeField(f) == Q13(f.q)
    ensures f.Data? ==> EncodeField(f) == B4(|f.bytes|) + f.bytes
    ensures f.Stat? ==> EncodeField(f) == B2(|f.bytes|) + f.bytes
    ensures f.Names? ==> EncodeField(f) == B2(|f.names|) + AllTexts(f.names)
    ensures f.Qids? ==> EncodeField(f) == B2(|f.qids|) + AllQids(f.qids)
  {
    match f
    case I8(n) => LeBytes(n);
    case I16(n) => LeBytes(n);
    case I32(n) => LeBytes(n);
    case I64(n) => LeBytes(n);
    case Text(s) => LeBytes(|s|);
    case AQid(q) => QidIs(q);
    case Data(b) => LeBytes(|b|);
    case Stat(b) => LeBytes(|b|);
    case Names(l) => LeBytes(|l|); TextsAre(l);
    case Qids(l) => LeBytes(|l|); QidsAre(l);
    hide Le, EncodeTexts, EncodeQids, B1, B2, B4, B8;
  }

  function AllTexts(l: seq<Str>): Str {
    if l == [] then [] else S(l[0]) + AllTexts(l[1..])
  }

  function AllQids(l: seq<Qid>): Str {
    if l == [] then [] else Q13(l[0]) + AllQids(l[1..])
  }

  lemma QidIs(q: Qid)
    ensures EncodeQid(q) == Q13(q)
  {
    LeBytes(q.kind);
    LeBytes(q.vers);
    LeBytes(q.path);
    hide Le;
  }

  lemma {:induction false} TextsAre(l: seq<Str>)
    ensures EncodeTexts(l) == AllTexts(l)
  {
    if l != [] {
      LeBytes(|l[0]|);
      TextsAre(l[1..]);
    }
    hide Le;
  }

  lemma {:induction false} QidsAre(l: seq<Qid>)
    ensures EncodeQids(l) == AllQids(l)
  {
    if l != [] {
      QidIs(l[0]);
      QidsAre(l[1..]);
    }
    hide EncodeQid, Q13;
  }

  /** Tversion and Rversion: the size of messages and the version. */
  lemma {:induction false} Version(kind: byte, tag: int, msize: int, version: Str)
    requires kind == 100 || kind == 101
    requires 0 <= tag < 0x1_0000
    requires 0 <= msize < 0x1_0000_0000 && |version| < 0x1_0000
    requires 7 + |B4(msize) + S(version)| < 0x1_0000_0000
    ensures Wire(kind, tag, [I32(msize), Text(version)], B4(msize) + S(version))
  {
    PutIs(I32(msize));
    PutIs(Text(version));
    Put2(I32(msize), Text(version));
    Fit2(K32, KText, I32(msize), Text(version));
    hide EncodeField, EncodeFields, B1, B2, B4, B8, S, Q13, AllTexts, AllQids, Wire, Shorts, QidsFit, FitAll;
    WireIs(kind, tag, [I32(msize), Text(version)], B4(msize) + S(version));
  }

  /** Tauth: a fid, the user and the tree. */
  lemma {:induction false} Tauth(tag: int, afid: int, uname: Str, aname: Str)
    requires 0 <= tag < 0x1_0000
    requires 0 <= afid < 0x1_0000_0000 && |uname| < 0x1_0000 && |aname| < 0x1_0000
    requires 7 + |B4(afid) + S(uname) + S(aname)| < 0x1_0000_0000
    ensures Wire(102, tag, [I32(afid), Text(uname), Text(aname)], B4(afid) + S(uname) + S(aname))
  {
    PutIs(I32(afid));
    PutIs(Text(uname));
    PutIs(Text(aname));
    Put3(I32(afid), Text(uname), Text(aname));
    Fit3(K32, KText, KText, I32(afid), Text(uname), Text(aname));
    hide EncodeField, EncodeFields, B1, B2, B4, B8, S, Q13, AllTexts, AllQids, Wire, Shorts, QidsFit, FitAll;
    WireIs(102, tag, [I32(afid), Text(uname), Text(aname)], B4(afid) + S(uname) + S(aname));
  }

  /** Rauth and Rattach: a qid. */
  lemma {:induction false} QidOnly(kind: byte, tag: int, qid: Qid)
    requires kind == 103 || kind == 105
    requires 0 <= tag < 0x1_0000
    requires qid.Fits()
    requires 7 + |Q13(qid)| < 0x1_0000_0000
    ensures Wire(kind, tag, [AQid(qid)], Q13(qid))
  {
    PutIs(AQid(qid));
    Put1(AQid(qid));
    Fit1(KQid, AQid(qid));
    hide EncodeField, EncodeFields, B1, B2, B4, B8, S, Q13, AllTexts, AllQids, Wire, Shorts, QidsFit, FitAll;
    WireIs(kind, tag, [AQid(qid)], Q13(qid));
  }

  /** Tattach: two fids, the user and the tree. */
  lemma {:induction false} Tattach(tag: int, fid: int, afid: int, uname: Str, aname: Str)
    requires 0 <= tag < 0x1_0000
    requires 0 <= fid < 0x1_0000_0000 && 0 <= afid < 0x1_0000_0000 && |uname| < 0x1_0000 && |aname| < 0x1_0000
    requires 7 + |B4(fid) + B4(afid) + S(uname) + S(aname)| < 0x1_0000_0000
    ensures Wire(104, tag, [I32(fid), I32(afid), Text(uname), Text(aname)], B4(fid) + B4(afid) + S(uname) + S(aname))
  {
    PutIs(I32(fid));
    PutIs(I32(afid));
    PutIs(Text(uname));
    PutIs(Text(aname));
    Put4(I32(fid), I32(afid), Text(uname), Text(aname));
    Fit4(K32, K32, KText, KText, I32(fid), I32(afid), Text(uname), Text(aname));
    hide EncodeField, EncodeFields, B1, B2, B4, B8, S, Q13, AllTexts, AllQids, Wire, Shorts, QidsFit, FitAll;
    WireIs(104, tag, [I32(fid), I32(afid), Text(uname), Text(aname)], B4(fid) + B4(afid) + S(uname) + S(aname));
  }

  /** Rerror: the reason. */
  lemma {:induction false} Rerror(tag: int, ename: Str)
    requires 0 <= tag < 0x1_0000
    requires |ename| < 0x1_0000
    requires 7 + |S(ename)| < 0x1_0000_0000
    ensures Wire(107, tag, [Text(ename)], S(ename))
  {
    PutIs(Text(ename));
    Put1(Text(ename));
    Fit1(KText, Text(ename));
    hide EncodeField, EncodeFields, B1, B2, B4, B8, S, Q13, AllTexts, AllQids, Wire, Shorts, QidsFit, FitAll;
    WireIs(107, tag, [Text(ename)], S(ename));
  }

  /** Tflush: the tag of the message to be forgotten. */
  lemma {:induction false} Tflush(tag: int, oldtag: int)
    requires 0 <= tag < 0x1_0000
    requires 0 <= oldtag < 0x1_0000
    requires 7 + |B2(oldtag)| < 0x1_0000_0000
    ensures Wire(108, tag, [I16(oldtag)], B2(oldtag))
  {
    PutIs(I16(oldtag));
    Put1(I16(oldtag));
    Fit1(K16, I16(oldtag));
    hide EncodeField, EncodeFields, B1, B2, B4, B8, S, Q13, AllTexts, AllQids, Wire, Shorts, QidsFit, FitAll;
    WireIs(108, tag, [I16(oldtag)], B2(oldtag));
  }

  /** Twalk: two fids and names. */
  lemma {:induction false} Twalk(tag: int, fid: int, newfid: int, wnames: seq<Str>)
    requires 0 <= tag < 0x1_0000
    requires 0 <= fid < 0x1_0000_0000 && 0 <= newfid < 0x1_0000_0000 && |wnames| <= 16 && Shorts(wnames)
    requires 7 + |B4(fid) + B4(newfid) + (B2(|wnames|) + AllTexts(wnames))| < 0x1_0000_0000
    ensures Wire(110, tag, [I32(fid), I32(newfid), Names(wnames)], B4(fid) + B4(newfid) + (B2(|wnames|) + AllTexts(wnames)))
  {
    PutIs(I32(fid));
    PutIs(I32(newfid));
    PutIs(Names(wnames));
    Put3(I32(fid), I32(newfid), Names(wnames));
    Fit3(K32, K32, KNames, I32(fid), I32(newfid), Names(wnames));
    hide EncodeField, EncodeFields, B1, B2, B4, B8, S, Q13, AllTexts, AllQids, Wire, Shorts, QidsFit, FitAll;
    WireIs(110, tag, [I32(fid), I32(newfid), Names(wnames)], B4(fid) + B4(newfid) + (B2(|wnames|) + AllTexts(wnames)));
  }

  /** Rwalk: qids. */
  lemma {:induction false} Rwalk(tag: int, wqids: seq<Qid>)
    requires 0 <= tag < 0x1_0000
    requires |wqids| <= 16 && QidsFit(wqids)
    requires 7 + |B2(|wqids|) + AllQids(wqids)| < 0x1_0000_0000
    ensures Wire(111, tag, [Qids(wqids)], B2(|wqids|) + AllQids(wqids))
  {
    PutIs(Qids(wqids));
    Put1(Qids(wqids));
    Fit1(KQids, Qids(wqids));
    hide EncodeField, EncodeFields, B1, B2, B4, B8, S, Q13, AllTexts, AllQids, Wire, Shorts, QidsFit, FitAll;
    WireIs(111, tag, [Qids(wqids)], B2(|wqids|) + AllQids(wqids));
  }

  /** Topen: a fid and the mode. */
  lemma {:induction false} Topen(tag: int, fid: int, mode: int)
    requires 0 <= tag < 0x1_0000
    requires 0 <= fid < 0x1_0000_0000 && 0 <= mode < 0x100
    requires 7 + |B4(fid) + B1(mode)| < 0x1_0000_0000
    ensures Wire(112, tag, [I32(fid), I8(mode)], B4(fid) + B1(mode))
  {
    PutIs(I32(fid));
    PutIs(I8(mode));
    Put2(I32(fid), I8(mode));
    Fit2(K32, K8, I32(fid), I8(mode));
    hide EncodeField, EncodeFields, B1, B2, B4, B8, S, Q13, AllTexts, AllQids, Wire, Shorts, QidsFit, FitAll;
    WireIs(112, tag, [I32(fid), I8(mode)], B4(fid) + B1(mode));
  }

  /** Ropen and Rcreate: a qid and the size of transfers. */
  lemma {:induction false} Opened(kind: byte, tag: int, qid: Qid, iounit: int)
    requires kind == 113 || kind == 115
    requires 0 <= tag < 0x1_0000
    requires qid.Fits() && 0 <= iounit < 0x1_0000_0000
    requires 7 + |Q13(qid) + B4(iounit)| < 0x1_0000_0000
    ensures Wire(kind, tag, [AQid(qid), I32(iounit)], Q13(qid) + B4(iounit))
  {
    PutIs(AQid(qid));
    PutIs(I32(iounit));
    Put2(AQid(qid), I32(iounit));
    Fit2(KQid, K32, AQid(qid), I32(iounit));
    hide EncodeField, EncodeFields, B1, B2, B4, B8, S, Q13, AllTexts, AllQids, Wire, Shorts, QidsFit, FitAll;
    WireIs(kind, tag, [AQid(qid), I32(iounit)], Q13(qid) + B4(iounit));
  }

  /** Tcreate: a fid, the name, permissions and mode. */
  lemma {:induction false} Tcreate(tag: int, fid: int, name: Str, perm: int, mode: int)
    requires 0 <= tag < 0x1_0000
    requires 0 <= fid < 0x1_0000_0000 && |name| < 0x1_0000 && 0 <= perm < 0x1_0000_0000 && 0 <= mode < 0x100
    requires 7 + |B4(fid) + S(name) + B4(perm) + B1(mode)| < 0x1_0000_0000
    ensures Wire(114, tag, [I32(fid), Text(name), I32(perm), I8(mode)], B4(fid) + S(name) + B4(perm) + B1(mode))
  {
    PutIs(I32(fid));
    PutIs(Text(name));
    PutIs(I32(perm));
    PutIs(I8(mode));
    Put4(I32(fid), Text(name), I32(perm), I8(mode));
    Fit4(K32, KText, K32, K8, I32(fid), Text(name), I32(perm), I8(mode));
    hide EncodeField, EncodeFields, B1, B2, B4, B8, S, Q13, AllTexts, AllQids, Wire, Shorts, QidsFit, FitAll;
    WireIs(114, tag, [I32(fid), Text(name), I32(perm), I8(mode)], B4(fid) + S(name) + B4(perm) + B1(mode));
  }

  /** Tread: a fid, where, and how much. */
  lemma {:induction false} Tread(tag: int, fid: int, offset: int, count: int)
    requires 0 <= tag < 0x1_0000
    requires 0 <= fid < 0x1_0000_0000 && 0 <= offset < 0x1_0000_0000_0000_0000 && 0 <= count < 0x1_0000_0000
    requires 7 + |B4(fid) + B8(offset) + B4(count)| < 0x1_0000_0000
    ensures Wire(116, tag, [I32(fid), I64(offset), I32(count)], B4(fid) + B8(offset) + B4(count))
  {
    PutIs(I32(fid));
    PutIs(I64(offset));
    PutIs(I32(count));
    Put3(I32(fid), I64(offset), I32(count));
    Fit3(K32, K64, K32, I32(fid), I64(offset), I32(count));
    hide EncodeField, EncodeFields, B1, B2, B4, B8, S, Q13, AllTexts, AllQids, Wire, Shorts, QidsFit, FitAll;
    WireIs(116, tag, [I32(fid), I64(offset), I32(count)], B4(fid) + B8(offset) + B4(count));
  }

  /** Rread: counted bytes. */
  lemma {:induction false} Rread(tag: int, data: Str)
    requires 0 <= tag < 0x1_0000
    requires |data| < 0x1_0000_0000
    requires 7 + |B4(|data|) + data| < 0x1_0000_0000
    ensures Wire(117, tag, [Data(data)], B4(|data|) + data)
  {
    PutIs(Data(data));
    Put1(Data(data));
    Fit1(KData, Data(data));
    hide EncodeField, EncodeFields, B1, B2, B4, B8, S, Q13, AllTexts, AllQids, Wire, Shorts, QidsFit, FitAll;
    WireIs(117, tag, [Data(data)], B4(|data|) + data);
  }

  /** Twrite: a fid, where, and counted bytes. */
  lemma {:induction false} Twrite(tag: int, fid: int, offset: int, data: Str)
    requires 0 <= tag < 0x1_0000
    requires 0 <= fid < 0x1_0000_0000 && 0 <= offset < 0x1_0000_0000_0000_0000 && |data| < 0x1_0000_0000
    requires 7 + |B4(fid) + B8(offset) + (B4(|data|) + data)| < 0x1_0000_0000
    ensures Wire(118, tag, [I32(fid), I64(offset), Data(data)], B4(fid) + B8(offset) + (B4(|data|) + data))
  {
    PutIs(I32(fid));
    PutIs(I64(offset));
    PutIs(Data(data));
    Put3(I32(fid), I64(offset), Data(data));
    Fit3(K32, K64, KData, I32(fid), I64(offset), Data(data));
    hide EncodeField, EncodeFields, B1, B2, B4, B8, S, Q13, AllTexts, AllQids, Wire, Shorts, QidsFit, FitAll;
    WireIs(118, tag, [I32(fid), I64(offset), Data(data)], B4(fid) + B8(offset) + (B4(|data|) + data));
  }

  /** Rwrite, with a count, and Tclunk, Tremove and Tstat, with a fid. */
  lemma {:induction false} Number(kind: byte, tag: int, n: int)
    requires kind == 119 || kind == 120 || kind == 122 || kind == 124
    requires 0 <= tag < 0x1_0000
    requires 0 <= n < 0x1_0000_0000
    requires 7 + |B4(n)| < 0x1_0000_0000
    ensures Wire(kind, tag, [I32(n)], B4(n))
  {
    PutIs(I32(n));
    Put1(I32(n));
    Fit1(K32, I32(n));
    hide EncodeField, EncodeFields, B1, B2, B4, B8, S, Q13, AllTexts, AllQids, Wire, Shorts, QidsFit, FitAll;
    WireIs(kind, tag, [I32(n)], B4(n));
  }

  /** Rstat: a directory entry. */
  lemma {:induction false} Rstat(tag: int, stat: Str)
    requires 0 <= tag < 0x1_0000
    requires |stat| < 0x1_0000
    requires 7 + |B2(|stat|) + stat| < 0x1_0000_0000
    ensures Wire(125, tag, [Stat(stat)], B2(|stat|) + stat)
  {
    PutIs(Stat(stat));
    Put1(Stat(stat));
    Fit1(KStat, Stat(stat));
    hide EncodeField, EncodeFields, B1, B2, B4, B8, S, Q13, AllTexts, AllQids, Wire, Shorts, QidsFit, FitAll;
    WireIs(125, tag, [Stat(stat)], B2(|stat|) + stat);
  }

  /** Twstat: a fid and a directory entry. */
  lemma {:induction false} Twstat(tag: int, fid: int, stat: Str)
    requires 0 <= tag < 0x1_0000
    requires 0 <= fid < 0x1_0000_0000 && |stat| < 0x1_0000
    requires 7 + |B4(fid) + (B2(|stat|) + stat)| < 0x1_0000_0000
    ensures Wire(126, tag, [I32(fid), Stat(stat)], B4(fid) + (B2(|stat|) + stat))
  {
    PutIs(I32(fid));
    PutIs(Stat(stat));
    Put2(I32(fid), Stat(stat));
    Fit2(K32, KStat, I32(fid), Stat(stat));
    hide EncodeField, EncodeFields, B1, B2, B4, B8, S, Q13, AllTexts, AllQids, Wire, Shorts, QidsFit, FitAll;
    WireIs(126, tag, [I32(fid), Stat(stat)], B4(fid) + (B2(|stat|) + stat));
  }

  /** Rflush, Rclunk, Rremove and Rwstat: nothing. */
  lemma Bare(kind: byte, tag: int)
    requires (kind == 109 || kind == 121 || kind == 123 || kind == 127) && 0 <= tag < 0x1_0000
    ensures Wire(kind, tag, [], [])
  {
    hide Wire;
    WireIs(kind, tag, [], []);
  }

  /** There are no other types. */
  lemma NoOther(kind: int)
    ensures Format(kind) == None <==> kind < 100 || kind > 127 || kind == 106
  {
  }

  /** More than sixteen names, or qids, are no message. */
  lemma TooMany(m: Fcall)
    requires WellFormed(m)
    ensures forall i :: 0 <= i < |m.fields| ==>
              (m.fields[i].Names? ==> |m.fields[i].names| <= 16) && (m.fields[i].Qids? ==> |m.fields[i].qids| <= 16)
  {
    FewEach(Format(m.kind).value, m.fields);
  }

  lemma {:induction false} FewEach(ks: seq<Kind>, l: seq<Field>)
    requires FitAll(ks, l)
    ensures forall i :: 0 <= i < |l| ==>
              (l[i].Names? ==> |l[i].names| <= 16) && (l[i].Qids? ==> |l[i].qids| <= 16)
  {
    if l != [] {
      FewEach(ks[1..], l[1..]);
      assert forall i :: 0 < i < |l| ==> l[i] == l[1..][i - 1];
    }
  }
}
