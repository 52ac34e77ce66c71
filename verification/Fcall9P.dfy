/**
 Messages of the 9P2000 protocol: their bytes (lib9/convS2M.c), and how they are
 read in place (lib9/convM2S.c), each string sliding down over its own count to
 make room for the NUL behind it.
 */
module Fcall9P {
  import opened Basics
  import opened ByteStrings

  const MAXWELEM := 16

  datatype Qid = Qid(kind: int, vers: int, path: int) {
    predicate Fits() { 0 <= kind < 0x100 && 0 <= vers < 0x1_0000_0000 && 0 <= path < 0x1_0000_0000_0000_0000 }
  }

  /** The parts messages are made of; Data and Stat are counted bytes. */
  datatype Field =
    | I8(n: int)
    | I16(n: int)
    | I32(n: int)
    | I64(n: int)
    | Text(s: Str)
    | AQid(q: Qid)
    | Names(names: seq<Str>)
    | Qids(qids: seq<Qid>)
    | Data(bytes: Str)
    | Stat(bytes: Str)

  datatype Kind = K8 | K16 | K32 | K64 | KText | KQid | KNames | KQids | KData | KStat

  datatype Fcall = Fcall(kind: int, tag: int, fields: seq<Field>)

  /** The parts of each type of message (include/fcall.h:90-121). */
  function Format(kind: int): Option<seq<Kind>> {
    match kind
    case 100 => Some([K32, KText])               // Tversion
    case 101 => Some([K32, KText])
    case 102 => Some([K32, KText, KText])        // Tauth
    case 103 => Some([KQid])
    case 104 => Some([K32, K32, KText, KText])   // Tattach
    case 105 => Some([KQid])
    case 107 => Some([KText])                    // Rerror
    case 108 => Some([K16])                      // Tflush
    case 109 => Some([])
    case 110 => Some([K32, K32, KNames])         // Twalk
    case 111 => Some([KQids])
    case 112 => Some([K32, K8])                  // Topen
    case 113 => Some([KQid, K32])
    case 114 => Some([K32, KText, K32, K8])      // Tcreate
    case 115 => Some([KQid, K32])
    case 116 => Some([K32, K64, K32])            // Tread
    case 117 => Some([KData])
    case 118 => Some([K32, K64, KData])          // Twrite
    case 119 => Some([K32])
    case 120 => Some([K32])                      // Tclunk
    case 121 => Some([])
    case 122 => Some([K32])                      // Tremove
    case 123 => Some([])
    case 124 => Some([K32])                      // Tstat
    case 125 => Some([KStat])
    case 126 => Some([K32, KStat])               // Twstat
    case 127 => Some([])
    case _ => None
  }

  // ------------------------------------------------------------------
  // Numbers, the low byte first

  function Le(v: int, k: nat): (b: Str)
    ensures |b| == k
    decreases k
  {
    if k == 0 then [] else [v % 256] + Le(v / 256, k - 1)
  }

  function UnLe(b: Str, p: nat, k: nat): (v: int)
    requires p + k <= |b|
    ensures v >= 0
    decreases k
  {
    if k == 0 then 0 else b[p] + 256 * UnLe(b, p + 1, k - 1)
  }

  function Pow256(k: nat): int {
    if k == 0 then 1 else 256 * Pow256(k - 1)
  }

  lemma {:induction false} UnLeOfLe(v: int, k: nat, b: Str, p: nat)
    requires 0 <= v < Pow256(k) && At(b, p, Le(v, k))
    ensures p + k <= |b| && UnLe(b, p, k) == v
    decreases k
  {
    if k > 0 {
      var x: Str := [v % 256];
      AtJoin(b, p, x, Le(v / 256, k - 1));
      AtByte(b, p, v % 256);
      hide At;
      UnLeOfLe(v / 256, k - 1, b, p + 1);
    }
  }

  lemma {:induction false} LeOfUnLe(b: Str, p: nat, k: nat)
    requires p + k <= |b|
    ensures UnLe(b, p, k) < Pow256(k) && At(b, p, Le(UnLe(b, p, k), k))
    decreases k
  {
    if k > 0 {
      var v := UnLe(b, p + 1, k - 1);
      LeOfUnLe(b, p + 1, k - 1);
      Digit(b[p], v);
      AtByte(b, p, b[p]);
      hide At, UnLe;
      AtJoin(b, p, [b[p]], Le(v, k - 1));
    }
  }

  lemma Digit(x: int, v: int)
    requires 0 <= x < 256
    ensures (x + 256 * v) % 256 == x && (x + 256 * v) / 256 == v
  {
  }

  // ------------------------------------------------------------------
  // The bytes of a message

  function EncodeText(s: Str): Str { Le(|s|, 2) + s }

  function EncodeQid(q: Qid): Str { Le(q.kind, 1) + Le(q.vers, 4) + Le(q.path, 8) }

  function EncodeTexts(l: seq<Str>): Str {
    if l == [] then [] else EncodeText(l[0]) + EncodeTexts(l[1..])
  }

  function EncodeQids(l: seq<Qid>): Str {
    if l == [] then [] else EncodeQid(l[0]) + EncodeQids(l[1..])
  }

  function EncodeField(f: Field): Str {
    match f
    case I8(n) => Le(n, 1)
    case I16(n) => Le(n, 2)
    case I32(n) => Le(n, 4)
    case I64(n) => Le(n, 8)
    case Text(s) => EncodeText(s)
    case AQid(q) => EncodeQid(q)
    case Names(l) => Le(|l|, 2) + EncodeTexts(l)
    case Qids(l) => Le(|l|, 2) + EncodeQids(l)
    case Data(b) => Le(|b|, 4) + b
    case Stat(b) => Le(|b|, 2) + b
  }

  function EncodeFields(l: seq<Field>): Str {
    if l == [] then [] else EncodeField(l[0]) + EncodeFields(l[1..])
  }

  function Encode(m: Fcall): Str {
    var body := EncodeFields(m.fields);
    Le(7 + |body|, 4) + Le(m.kind, 1) + Le(m.tag, 2) + body
  }

  predicate Shorts(l: seq<Str>) {
    l == [] || (|l[0]| < 0x1_0000 && Shorts(l[1..]))
  }

  predicate QidsFit(l: seq<Qid>) {
    l == [] || (l[0].Fits() && QidsFit(l[1..]))
  }

  predicate FitAll(ks: seq<Kind>, l: seq<Field>) {
    |ks| == |l| && (l == [] || (Fits(ks[0], l[0]) && FitAll(ks[1..], l[1..])))
  }

  /** The field is of the kind and its numbers fit their places. */
  predicate Fits(k: Kind, f: Field) {
    match k
    case K8 => f.I8? && 0 <= f.n < 0x100
    case K16 => f.I16? && 0 <= f.n < 0x1_0000
    case K32 => f.I32? && 0 <= f.n < 0x1_0000_0000
    case K64 => f.I64? && 0 <= f.n < 0x1_0000_0000_0000_0000
    case KText => f.Text? && |f.s| < 0x1_0000
    case KQid => f.AQid? && f.q.Fits()
    case KNames => f.Names? && |f.names| <= MAXWELEM && Shorts(f.names)
    case KQids => f.Qids? && |f.qids| <= MAXWELEM && QidsFit(f.qids)
    case KData => f.Data? && |f.bytes| < 0x1_0000_0000
    case KStat => f.Stat? && |f.bytes| < 0x1_0000
  }

  /** What fits its places, too. */
  predicate WellFormed(m: Fcall) {
    && 0 <= m.kind < 0x100 && 0 <= m.tag < 0x1_0000 && |Encode(m)| < 0x1_0000_0000
    && Format(m.kind).Some? && FitAll(Format(m.kind).value, m.fields)
  }

  // ------------------------------------------------------------------
  // Reading a message

  // What is read from a place on, and the place behind it.
  datatype TextAt = NoText | TextAt(s: Str, next: nat)
  datatype QidAt = NoQid | QidAt(q: Qid, next: nat)
  datatype TextsAt = NoTexts | TextsAt(l: seq<Str>, next: nat)
  datatype QidsAt = NoQids | QidsAt(l: seq<Qid>, next: nat)
  datatype FieldAt = NoField | FieldAt(f: Field, next: nat)
  datatype FieldsAt = NoFields | FieldsAt(l: seq<Field>, next: nat)

  /** Bytes behind a count of k bytes. */
  function TakeBytes(b: Str, p: nat, k: nat): TextAt {
    if p + k > |b| then NoText
    else
      var n := UnLe(b, p, k);
      if p + k + n > |b| then NoText else TextAt(b[p + k..p + k + n], p + k + n)
  }

  function TakeQid(b: Str, p: nat): QidAt {
    if p + 13 > |b| then NoQid
    else QidAt(Qid(UnLe(b, p, 1), UnLe(b, p + 1, 4), UnLe(b, p + 5, 8)), p + 13)
  }

  function TakeTexts(b: Str, p: nat, n: nat): TextsAt
    decreases n
  {
    if n == 0 then TextsAt([], p)
    else
      var x := TakeBytes(b, p, 2);
      if x.NoText? then NoTexts
      else
        var r := TakeTexts(b, x.next, n - 1);
        if r.NoTexts? then NoTexts else TextsAt([x.s] + r.l, r.next)
  }

  function TakeQids(b: Str, p: nat, n: nat): QidsAt
    decreases n
  {
    if n == 0 then QidsAt([], p)
    else
      var x := TakeQid(b, p);
      if x.NoQid? then NoQids
      else
        var r := TakeQids(b, x.next, n - 1);
        if r.NoQids? then NoQids else QidsAt([x.q] + r.l, r.next)
  }

  /** One field from place p on. */
  function Take(k: Kind, b: Str, p: nat): FieldAt {
    match k
    case K8 => if p + 1 > |b| then NoField else FieldAt(I8(UnLe(b, p, 1)), p + 1)
    case K16 => if p + 2 > |b| then NoField else FieldAt(I16(UnLe(b, p, 2)), p + 2)
    case K32 => if p + 4 > |b| then NoField else FieldAt(I32(UnLe(b, p, 4)), p + 4)
    case K64 => if p + 8 > |b| then NoField else FieldAt(I64(UnLe(b, p, 8)), p + 8)
    case KText =>
      var x := TakeBytes(b, p, 2);
      if x.NoText? then NoField else FieldAt(Text(x.s), x.next)
    case KQid =>
      var x := TakeQid(b, p);
      if x.NoQid? then NoField else FieldAt(AQid(x.q), x.next)
    case KNames =>
      if p + 2 > |b| || UnLe(b, p, 2) > MAXWELEM then NoField
      else
        var x := TakeTexts(b, p + 2, UnLe(b, p, 2));
        if x.NoTexts? then NoField else FieldAt(Names(x.l), x.next)
    case KQids =>
      if p + 2 > |b| || UnLe(b, p, 2) > MAXWELEM then NoField
      else
        var x := TakeQids(b, p + 2, UnLe(b, p, 2));
        if x.NoQids? then NoField else FieldAt(Qids(x.l), x.next)
    case KData =>
      var x := TakeBytes(b, p, 4);
      if x.NoText? then NoField else FieldAt(Data(x.s), x.next)
    case KStat =>
      var x := TakeBytes(b, p, 2);
      if x.NoText? then NoField else FieldAt(Stat(x.s), x.next)
  }

  function TakeFields(ks: seq<Kind>, b: Str, p: nat): FieldsAt {
    if ks == [] then FieldsAt([], p)
    else
      var x := Take(ks[0], b, p);
      if x.NoField? then NoFields
      else
        var r := TakeFields(ks[1..], b, x.next);
        if r.NoFields? then NoFields else FieldsAt([x.f] + r.l, r.next)
  }

  /** What convM2S makes of the bytes: a message that takes exactly the number of
      bytes it says, or nothing. */
  function Decode(b: Str): Option<Fcall> {
    if |b| < 7 || UnLe(b, 0, 4) < 7 || Format(b[4]) == None then None
    else
      var x := TakeFields(Format(b[4]).value, b, 7);
      if x.NoFields? || x.next != UnLe(b, 0, 4) then None else Some(Fcall(b[4], UnLe(b, 5, 2), x.l))
  }

  // ------------------------------------------------------------------
  // Reading is the inverse of writing

  lemma Powers()
    ensures Pow256(1) == 0x100 && Pow256(2) == 0x1_0000 && Pow256(4) == 0x1_0000_0000 && Pow256(8) == 0x1_0000_0000_0000_0000
  {
    assert Pow256(3) == 256 * Pow256(2) && Pow256(5) == 256 * Pow256(4) && Pow256(7) == 256 * Pow256(6);
  }

  lemma BytesTaken(b: Str, p: nat, s: Str, k: nat)
    requires |s| < Pow256(k) && At(b, p, Le(|s|, k) + s)
    ensures TakeBytes(b, p, k) == TextAt(s, p + k + |s|)
  {
    assert |Le(|s|, k)| == k;
    AtJoin(b, p, Le(|s|, k), s);
    hide At, Le, UnLe, TakeBytes;
    CountedTaken(b, p, s, k);
  }

  lemma CountedTaken(b: Str, p: nat, s: Str, k: nat)
    requires |s| < Pow256(k) && At(b, p, Le(|s|, k)) && At(b, p + k, s)
    ensures TakeBytes(b, p, k) == TextAt(s, p + k + |s|)
  {
    hide At, Le, UnLe;
    UnLeOfLe(|s|, k, b, p);
    AtSlice(b, p + k, s);
  }

  lemma BytesWritten(b: Str, p: nat, k: nat)
    requires TakeBytes(b, p, k).TextAt?
    ensures var r := TakeBytes(b, p, k);
            |r.s| < Pow256(k) && r.next <= |b| && r.next == p + k + |r.s| && At(b, p, Le(|r.s|, k) + r.s)
  {
    var s := TakeBytes(b, p, k).s;
    assert |Le(|s|, k)| == k;
    LeOfUnLe(b, p, k);
    AtSlice(b, p + k, s);
    hide At, Le, UnLe;
    AtJoin(b, p, Le(|s|, k), s);
  }

  lemma TextTaken(b: Str, p: nat, s: Str)
    requires |s| < 0x1_0000 && At(b, p, EncodeText(s))
    ensures TakeBytes(b, p, 2) == TextAt(s, p + |EncodeText(s)|)
  {
    Powers();
    assert |EncodeText(s)| == 2 + |s|;
    hide At, Le, UnLe, Pow256, TakeBytes;
    BytesTaken(b, p, s, 2);
  }

  lemma TextWritten(b: Str, p: nat)
    requires TakeBytes(b, p, 2).TextAt?
    ensures var r := TakeBytes(b, p, 2);
            |r.s| < 0x1_0000 && r.next <= |b| && r.next == p + |EncodeText(r.s)| && At(b, p, EncodeText(r.s))
  {
    Powers();
    assert |EncodeText(TakeBytes(b, p, 2).s)| == 2 + |TakeBytes(b, p, 2).s|;
    hide At, Le, UnLe, Pow256, TakeBytes;
    BytesWritten(b, p, 2);
  }

  lemma QidParts(b: Str, p: nat, q: Qid)
    ensures At(b, p, EncodeQid(q)) <==> At(b, p, Le(q.kind, 1)) && At(b, p + 1, Le(q.vers, 4)) && At(b, p + 5, Le(q.path, 8))
    ensures |EncodeQid(q)| == 13
  {
    hide At;
    AtJoin(b, p, Le(q.kind, 1) + Le(q.vers, 4), Le(q.path, 8));
    AtJoin(b, p, Le(q.kind, 1), Le(q.vers, 4));
  }

  lemma QidTaken(b: Str, p: nat, q: Qid)
    requires q.Fits() && At(b, p, EncodeQid(q))
    ensures TakeQid(b, p) == QidAt(q, p + |EncodeQid(q)|)
  {
    Powers();
    QidParts(b, p, q);
    hide At, Le, UnLe, EncodeQid;
    UnLeOfLe(q.kind, 1, b, p);
    UnLeOfLe(q.vers, 4, b, p + 1);
    UnLeOfLe(q.path, 8, b, p + 5);
  }

  lemma QidWritten(b: Str, p: nat)
    requires TakeQid(b, p).QidAt?
    ensures var r := TakeQid(b, p);
            r.q.Fits() && r.next <= |b| && r.next == p + |EncodeQid(r.q)| && At(b, p, EncodeQid(r.q))
  {
    Powers();
    QidParts(b, p, TakeQid(b, p).q);
    hide At, Le, UnLe, EncodeQid;
    LeOfUnLe(b, p, 1);
    LeOfUnLe(b, p + 1, 4);
    LeOfUnLe(b, p + 5, 8);
  }

  lemma {:induction false} TextsTaken(b: Str, p: nat, l: seq<Str>)
    requires At(b, p, EncodeTexts(l)) && Shorts(l)
    ensures TakeTexts(b, p, |l|) == TextsAt(l, p + |EncodeTexts(l)|)
    decreases |l|, 1
  {
    if l == [] {
      assert EncodeTexts(l) == [];
    } else {
      assert l == [l[0]] + l[1..];
      TextsTakenMore(b, p, l[0], l[1..]);
    }
  }

  lemma {:induction false} TextsTakenMore(b: Str, p: nat, x: Str, t: seq<Str>)
    requires At(b, p, EncodeTexts([x] + t)) && Shorts([x] + t)
    ensures TakeTexts(b, p, |[x] + t|) == TextsAt([x] + t, p + |EncodeTexts([x] + t)|)
    decreases 1 + |t|, 0
  {
    TextsCons(x, t);
    hide At, EncodeText, TakeBytes, EncodeTexts, Shorts, TakeTexts;
    var y, z := EncodeText(x), EncodeTexts(t);
    var q := p + |y|;
    AtBoth(b, p, y, q, z);
    TextTaken(b, p, x);
    TextsTaken(b, q, t);
    TextsStep(b, p, x, q, t, q + |z|);
  }

  lemma TextsUnstep(b: Str, p: nat, n: nat)
    requires n > 0 && TakeTexts(b, p, n).TextsAt?
    ensures var x := TakeBytes(b, p, 2);
            x.TextAt? && var r := TakeTexts(b, x.next, n - 1);
            r.TextsAt? && TakeTexts(b, p, n) == TextsAt([x.s] + r.l, r.next)
  {
    hide TakeBytes;
  }

  lemma TextsStep(b: Str, p: nat, x: Str, q: nat, t: seq<Str>, r: nat)
    requires TakeBytes(b, p, 2) == TextAt(x, q) && TakeTexts(b, q, |t|) == TextsAt(t, r)
    ensures TakeTexts(b, p, |[x] + t|) == TextsAt([x] + t, r)
  {
    hide TakeBytes;
  }

  lemma TextsCons(x: Str, l: seq<Str>)
    ensures EncodeTexts([x] + l) == EncodeText(x) + EncodeTexts(l) && EncodeTexts([]) == []
    ensures Shorts([x] + l) <==> |x| < 0x1_0000 && Shorts(l)
  {
    assert ([x] + l)[1..] == l;
    hide EncodeText;
  }

  lemma TextsPut(b: Str, p: nat, x: Str, q: nat, l: seq<Str>)
    requires At(b, p, EncodeText(x)) && q == p + |EncodeText(x)| && At(b, q, EncodeTexts(l)) && |x| < 0x1_0000 && Shorts(l)
    ensures At(b, p, EncodeTexts([x] + l)) && p + |EncodeTexts([x] + l)| == q + |EncodeTexts(l)|
    ensures Shorts([x] + l) && |[x] + l| == 1 + |l|
  {
    hide At, EncodeText, EncodeTexts, Shorts;
    AtBoth(b, p, EncodeText(x), q, EncodeTexts(l));
    TextsCons(x, l);
  }

  lemma {:induction false} TextsWritten(b: Str, p: nat, n: nat)
    requires p <= |b| && TakeTexts(b, p, n).TextsAt?
    ensures var r := TakeTexts(b, p, n);
            && |r.l| == n && r.next == p + |EncodeTexts(r.l)| && r.next <= |b| && At(b, p, EncodeTexts(r.l)) && Shorts(r.l)
    decreases n
  {
    if n > 0 {
      TextsUnstep(b, p, n);
      hide At, EncodeText, TakeBytes, EncodeTexts, Shorts, TakeTexts;
      var x := TakeBytes(b, p, 2);
      var r := TakeTexts(b, x.next, n - 1);
      TextWritten(b, p);
      TextsWritten(b, x.next, n - 1);
      TextsPut(b, p, x.s, x.next, r.l);
    } else {
      assert At(b, p, []);
    }
  }

  lemma {:induction false} QidsTaken(b: Str, p: nat, l: seq<Qid>)
    requires At(b, p, EncodeQids(l)) && QidsFit(l)
    ensures TakeQids(b, p, |l|) == QidsAt(l, p + |EncodeQids(l)|)
    decreases |l|, 1
  {
    if l == [] {
      assert EncodeQids(l) == [];
    } else {
      assert l == [l[0]] + l[1..];
      QidsTakenMore(b, p, l[0], l[1..]);
    }
  }

  lemma {:induction false} QidsTakenMore(b: Str, p: nat, x: Qid, t: seq<Qid>)
    requires At(b, p, EncodeQids([x] + t)) && QidsFit([x] + t)
    ensures TakeQids(b, p, |[x] + t|) == QidsAt([x] + t, p + |EncodeQids([x] + t)|)
    decreases 1 + |t|, 0
  {
    QidsCons(x, t);
    hide At, EncodeQid, TakeQid, EncodeQids, QidsFit, TakeQids;
    var y, z := EncodeQid(x), EncodeQids(t);
    var q := p + |y|;
    AtBoth(b, p, y, q, z);
    QidTaken(b, p, x);
    QidsTaken(b, q, t);
    QidsStep(b, p, x, q, t, q + |z|);
  }

  lemma QidsUnstep(b: Str, p: nat, n: nat)
    requires n > 0 && TakeQids(b, p, n).QidsAt?
    ensures var x := TakeQid(b, p);
            x.QidAt? && var r := TakeQids(b, x.next, n - 1);
            r.QidsAt? && TakeQids(b, p, n) == QidsAt([x.q] + r.l, r.next)
  {
    hide TakeQid;
  }

  lemma QidsStep(b: Str, p: nat, x: Qid, q: nat, t: seq<Qid>, r: nat)
    requires TakeQid(b, p) == QidAt(x, q) && TakeQids(b, q, |t|) == QidsAt(t, r)
    ensures TakeQids(b, p, |[x] + t|) == QidsAt([x] + t, r)
  {
    hide TakeQid;
  }

  lemma QidsCons(x: Qid, l: seq<Qid>)
    ensures EncodeQids([x] + l) == EncodeQid(x) + EncodeQids(l) && EncodeQids([]) == []
    ensures QidsFit([x] + l) <==> x.Fits() && QidsFit(l)
  {
    assert ([x] + l)[1..] == l;
    hide EncodeQid;
  }

  lemma QidsPut(b: Str, p: nat, x: Qid, q: nat, l: seq<Qid>)
    requires At(b, p, EncodeQid(x)) && q == p + |EncodeQid(x)| && At(b, q, EncodeQids(l)) && x.Fits() && QidsFit(l)
    ensures At(b, p, EncodeQids([x] + l)) && p + |EncodeQids([x] + l)| == q + |EncodeQids(l)|
    ensures QidsFit([x] + l) && |[x] + l| == 1 + |l|
  {
    hide At, EncodeQid, EncodeQids, QidsFit;
    AtBoth(b, p, EncodeQid(x), q, EncodeQids(l));
    QidsCons(x, l);
  }

  lemma {:induction false} QidsWritten(b: Str, p: nat, n: nat)
    requires p <= |b| && TakeQids(b, p, n).QidsAt?
    ensures var r := TakeQids(b, p, n);
            && |r.l| == n && r.next == p + |EncodeQids(r.l)| && r.next <= |b| && At(b, p, EncodeQids(r.l)) && QidsFit(r.l)
    decreases n
  {
    if n > 0 {
      QidsUnstep(b, p, n);
      hide At, EncodeQid, TakeQid, EncodeQids, QidsFit, TakeQids, Qid.Fits;
      var x := TakeQid(b, p);
      var r := TakeQids(b, x.next, n - 1);
      QidWritten(b, p);
      QidsWritten(b, x.next, n - 1);
      QidsPut(b, p, x.q, x.next, r.l);
    } else {
      assert At(b, p, []);
    }
  }

  lemma NamesTaken(b: Str, p: nat, l: seq<Str>)
    requires |l| <= MAXWELEM && At(b, p, Le(|l|, 2) + EncodeTexts(l)) && Shorts(l)
    ensures p + 2 <= |b| && UnLe(b, p, 2) == |l| && TakeTexts(b, p + 2, |l|) == TextsAt(l, p + 2 + |EncodeTexts(l)|)
  {
    assert |Le(|l|, 2)| == 2;
    hide At, Le, UnLe, EncodeTexts, TakeTexts, Shorts;
    AtJoin(b, p, Le(|l|, 2), EncodeTexts(l));
    NamesCounted(b, p, l);
  }

  lemma NamesCounted(b: Str, p: nat, l: seq<Str>)
    requires |l| <= MAXWELEM && At(b, p, Le(|l|, 2)) && At(b, p + 2, EncodeTexts(l)) && Shorts(l)
    ensures p + 2 <= |b| && UnLe(b, p, 2) == |l| && TakeTexts(b, p + 2, |l|) == TextsAt(l, p + 2 + |EncodeTexts(l)|)
  {
    Powers();
    hide At, Le, UnLe, EncodeTexts, TakeTexts, Pow256, Shorts;
    UnLeOfLe(|l|, 2, b, p);
    TextsTaken(b, p + 2, l);
  }

  lemma NamesWritten(b: Str, p: nat)
    requires p + 2 <= |b| && TakeTexts(b, p + 2, UnLe(b, p, 2)).TextsAt?
    ensures var r := TakeTexts(b, p + 2, UnLe(b, p, 2));
            && |r.l| == UnLe(b, p, 2) && r.next == p + 2 + |EncodeTexts(r.l)| && r.next <= |b|
            && At(b, p, Le(|r.l|, 2) + EncodeTexts(r.l)) && Shorts(r.l)
  {
    var n := UnLe(b, p, 2);
    assert |Le(n, 2)| == 2;
    hide At, Le, UnLe, EncodeTexts, TakeTexts, Shorts;
    LeOfUnLe(b, p, 2);
    TextsWritten(b, p + 2, n);
    AtJoin(b, p, Le(n, 2), EncodeTexts(TakeTexts(b, p + 2, n).l));
  }

  lemma QidListTaken(b: Str, p: nat, l: seq<Qid>)
    requires |l| <= MAXWELEM && At(b, p, Le(|l|, 2) + EncodeQids(l)) && QidsFit(l)
    ensures p + 2 <= |b| && UnLe(b, p, 2) == |l| && TakeQids(b, p + 2, |l|) == QidsAt(l, p + 2 + |EncodeQids(l)|)
  {
    assert |Le(|l|, 2)| == 2;
    hide At, Le, UnLe, EncodeQids, TakeQids, QidsFit;
    AtJoin(b, p, Le(|l|, 2), EncodeQids(l));
    QidListCounted(b, p, l);
  }

  lemma QidListCounted(b: Str, p: nat, l: seq<Qid>)
    requires |l| <= MAXWELEM && At(b, p, Le(|l|, 2)) && At(b, p + 2, EncodeQids(l)) && QidsFit(l)
    ensures p + 2 <= |b| && UnLe(b, p, 2) == |l| && TakeQids(b, p + 2, |l|) == QidsAt(l, p + 2 + |EncodeQids(l)|)
  {
    Powers();
    hide At, Le, UnLe, EncodeQids, TakeQids, Pow256, QidsFit;
    UnLeOfLe(|l|, 2, b, p);
    QidsTaken(b, p + 2, l);
  }

  lemma QidListWritten(b: Str, p: nat)
    requires p + 2 <= |b| && TakeQids(b, p + 2, UnLe(b, p, 2)).QidsAt?
    ensures var r := TakeQids(b, p + 2, UnLe(b, p, 2));
            && |r.l| == UnLe(b, p, 2) && r.next == p + 2 + |EncodeQids(r.l)| && r.next <= |b|
            && At(b, p, Le(|r.l|, 2) + EncodeQids(r.l)) && QidsFit(r.l)
  {
    var n := UnLe(b, p, 2);
    assert |Le(n, 2)| == 2;
    hide At, Le, UnLe, EncodeQids, TakeQids, QidsFit;
    LeOfUnLe(b, p, 2);
    QidsWritten(b, p + 2, n);
    AtJoin(b, p, Le(n, 2), EncodeQids(TakeQids(b, p + 2, n).l));
  }

  /** A field is read back from its bytes. */
  lemma FieldTaken(k: Kind, f: Field, b: Str, p: nat)
    requires Fits(k, f) && At(b, p, EncodeField(f))
    ensures Take(k, b, p) == FieldAt(f, p + |EncodeField(f)|)
  {
    Powers();
    hide At, UnLe, TakeBytes, TakeQid, EncodeQid, Pow256, TakeTexts, TakeQids, EncodeTexts, EncodeQids, Shorts, QidsFit;
    match k
    case K8 => UnLeOfLe(f.n, 1, b, p);
    case K16 => UnLeOfLe(f.n, 2, b, p);
    case K32 => UnLeOfLe(f.n, 4, b, p);
    case K64 => UnLeOfLe(f.n, 8, b, p);
    case KText => TextTaken(b, p, f.s);
    case KQid => QidTaken(b, p, f.q);
    case KNames => NamesTaken(b, p, f.names);
    case KQids => QidListTaken(b, p, f.qids);
    case KData => BytesTaken(b, p, f.bytes, 4);
    case KStat => BytesTaken(b, p, f.bytes, 2);
  }

  /** A field that has been read is the one that is written there. */
  lemma FieldWritten(k: Kind, b: Str, p: nat)
    requires Take(k, b, p).FieldAt?
    ensures var r := Take(k, b, p);
            Fits(k, r.f) && r.next == p + |EncodeField(r.f)| && r.next <= |b| && At(b, p, EncodeField(r.f))
  {
    Powers();
    hide At, UnLe, TakeBytes, TakeQid, EncodeQid, Pow256, TakeTexts, TakeQids, EncodeTexts, EncodeQids, Shorts, QidsFit;
    match k
    case K8 => LeOfUnLe(b, p, 1);
    case K16 => LeOfUnLe(b, p, 2);
    case K32 => LeOfUnLe(b, p, 4);
    case K64 => LeOfUnLe(b, p, 8);
    case KText => TextWritten(b, p);
    case KQid => QidWritten(b, p);
    case KNames => NamesWritten(b, p);
    case KQids => QidListWritten(b, p);
    case KData => BytesWritten(b, p, 4);
    case KStat => BytesWritten(b, p, 2);
  }

  lemma {:induction false} FieldsTaken(ks: seq<Kind>, l: seq<Field>, b: Str, p: nat)
    requires FitAll(ks, l) && At(b, p, EncodeFields(l))
    ensures TakeFields(ks, b, p) == FieldsAt(l, p + |EncodeFields(l)|)
    decreases |l|
  {
    if l == [] {
      assert EncodeFields(l) == [] && ks == [];
    } else {
      var x, t := l[0], l[1..];
      hide At, EncodeField, Take, Fits, EncodeFields, FitAll, TakeFields;
      FieldsHead(ks, l, x, t);
      var y, z := EncodeField(x), EncodeFields(t);
      var q := p + |y|;
      AtBoth(b, p, y, q, z);
      FieldTaken(ks[0], x, b, p);
      FieldsTaken(ks[1..], t, b, q);
      FieldsStep(ks, b, p, x, q, t, q + |z|);
    }
  }

  lemma FieldsHead(ks: seq<Kind>, l: seq<Field>, x: Field, t: seq<Field>)
    requires l != [] && x == l[0] && t == l[1..] && FitAll(ks, l)
    ensures EncodeFields(l) == EncodeField(x) + EncodeFields(t) && l == [x] + t
    ensures ks != [] && Fits(ks[0], x) && FitAll(ks[1..], t)
  {
    hide EncodeField, Fits;
  }

  lemma FieldsUnstep(ks: seq<Kind>, b: Str, p: nat)
    requires ks != [] && TakeFields(ks, b, p).FieldsAt?
    ensures var x := Take(ks[0], b, p);
            x.FieldAt? && var r := TakeFields(ks[1..], b, x.next);
            r.FieldsAt? && TakeFields(ks, b, p) == FieldsAt([x.f] + r.l, r.next)
  {
    hide Take;
  }

  lemma FieldsStep(ks: seq<Kind>, b: Str, p: nat, x: Field, q: nat, t: seq<Field>, r: nat)
    requires ks != [] && Take(ks[0], b, p) == FieldAt(x, q) && TakeFields(ks[1..], b, q) == FieldsAt(t, r)
    ensures TakeFields(ks, b, p) == FieldsAt([x] + t, r)
  {
    hide Take;
  }

  lemma FieldsCons(ks: seq<Kind>, x: Field, l: seq<Field>)
    requires ks != []
    ensures EncodeFields([x] + l) == EncodeField(x) + EncodeFields(l) && EncodeFields([]) == []
    ensures FitAll(ks, [x] + l) <==> Fits(ks[0], x) && FitAll(ks[1..], l)
  {
    assert ([x] + l)[1..] == l;
    hide EncodeField, Fits;
  }

  lemma {:induction false} FieldsWritten(ks: seq<Kind>, b: Str, p: nat)
    requires p <= |b| && TakeFields(ks, b, p).FieldsAt?
    ensures var r := TakeFields(ks, b, p);
            FitAll(ks, r.l) && r.next == p + |EncodeFields(r.l)| && r.next <= |b| && At(b, p, EncodeFields(r.l))
    decreases |ks|
  {
    if ks != [] {
      FieldsUnstep(ks, b, p);
      hide At, EncodeField, Take, Fits, EncodeFields, FitAll, TakeFields;
      var x := Take(ks[0], b, p);
      var r := TakeFields(ks[1..], b, x.next);
      FieldWritten(ks[0], b, p);
      FieldsWritten(ks[1..], b, x.next);
      AtBoth(b, p, EncodeField(x.f), x.next, EncodeFields(r.l));
      FieldsCons(ks, x.f, r.l);
    } else {
      assert At(b, p, []);
    }
  }

  /** The head of a message, and the rest. */
  lemma MessageAt(b: Str, m: Fcall)
    ensures var n := 7 + |EncodeFields(m.fields)|;
            && |Encode(m)| == n
            && (At(b, 0, Encode(m)) <==>
                At(b, 0, Le(n, 4)) && At(b, 4, Le(m.kind, 1)) && At(b, 5, Le(m.tag, 2)) && At(b, 7, EncodeFields(m.fields)))
  {
    var body := EncodeFields(m.fields);
    FourParts(b, Le(7 + |body|, 4), Le(m.kind, 1), Le(m.tag, 2), body);
    hide At, EncodeFields;
  }

  lemma FourParts(b: Str, x: Str, y: Str, z: Str, w: Str)
    ensures At(b, 0, x + y + z + w) <==>
            At(b, 0, x) && At(b, |x|, y) && At(b, |x| + |y|, z) && At(b, |x| + |y| + |z|, w)
  {
    hide At;
    AtJoin(b, 0, x + y + z, w);
    AtJoin(b, 0, x + y, z);
    AtJoin(b, 0, x, y);
  }

  /** Reading what was written gives the message back, whatever follows it. */
  lemma ReadBack(m: Fcall, b: Str)
    requires WellFormed(m) && At(b, 0, Encode(m))
    ensures Decode(b) == Some(m)
  {
    var n := 7 + |EncodeFields(m.fields)|;
    MessageAt(b, m);
    Powers();
    OneByte(b, 4);
    hide At, Le, UnLe, EncodeFields, Fits, Format, Encode, TakeFields, Pow256;
    UnLeOfLe(n, 4, b, 0);
    UnLeOfLe(m.kind, 1, b, 4);
    UnLeOfLe(m.tag, 2, b, 5);
    FieldsTaken(Format(m.kind).value, m.fields, b, 7);
  }

  lemma OneByte(b: Str, p: nat)
    ensures p < |b| ==> UnLe(b, p, 1) == b[p]
  {
    if p < |b| { assert UnLe(b, p + 1, 0) == 0; }
  }

  /** Every message that is read is the one that is written there, byte for
      byte, and fits its places. */
  lemma WrittenBack(b: Str)
    requires Decode(b).Some?
    ensures var m := Decode(b).value; WellFormed(m) && At(b, 0, Encode(m)) && |Encode(m)| == UnLe(b, 0, 4)
  {
    var m := Decode(b).value;
    MessageAt(b, m);
    Powers();
    OneByte(b, 4);
    hide At, Le, UnLe, EncodeFields, Fits, Format, TakeFields, Encode, Pow256;
    LeOfUnLe(b, 0, 4);
    LeOfUnLe(b, 4, 1);
    LeOfUnLe(b, 5, 2);
    FieldsWritten(Format(b[4]).value, b, 7);
  }

  /** Exactly the messages that fit their places survive. */
  lemma SurvivesIff(m: Fcall)
    ensures Decode(Encode(m)) == Some(m) <==> WellFormed(m)
  {
    if WellFormed(m) {
      assert At(Encode(m), 0, Encode(m));
      ReadBack(m, Encode(m));
    }
    if Decode(Encode(m)) == Some(m) { WrittenBack(Encode(m)); }
  }
}
