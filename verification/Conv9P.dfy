/**
 Writing 9P2000 messages into a buffer (lib9/convS2M.c) and reading them where they
 are (lib9/convM2S.c).
 */
module Conv9P {
  import opened Basics
  import opened ByteStrings
  import opened Fcall9P

  /** Nothing outside [lo, hi) has changed. */
  ghost predicate Outside(b: Str, b': Str, lo: int, hi: int) {
    |b'| == |b| && forall i :: 0 <= i < |b| && (i < lo || i >= hi) ==> b'[i] == b[i]
  }

  lemma AtKept(b: Str, b': Str, p: nat, x: Str, lo: int, hi: int)
    requires At(b, p, x) && Outside(b, b', lo, hi) && (p + |x| <= lo || hi <= p)
    ensures At(b', p, x)
  {
  }

  lemma OutsideJoin(b: Str, b': Str, b'': Str, lo: int, mid: int, hi: int)
    requires Outside(b, b', lo, mid) && Outside(b', b'', mid, hi) && lo <= mid <= hi
    ensures Outside(b, b'', lo, hi)
  {
  }

  lemma OutsideMore(b: Str, b': Str, lo: int, hi: int, top: int)
    requires Outside(b, b', lo, hi) && hi <= top
    ensures Outside(b, b', lo, top)
  {
  }

  lemma SelfOutside(b: Str, lo: int)
    ensures Outside(b, b, lo, lo)
  {
  }

  // ------------------------------------------------------------------
  // Writing

  /** The stores of PBIT8 to PBIT64, and memmove into the message. */
  method Put(ap: array<byte>, p: nat, x: Str) returns (q: nat)
    requires p + |x| <= ap.Length
    modifies ap
    ensures q == p + |x| && At(ap[..], p, x) && Outside(old(ap[..]), ap[..], p, q)
  {
    for i := 0 to |x|
      invariant forall k :: 0 <= k < i ==> ap[p + k] == x[k]
      invariant Outside(old(ap[..]), ap[..], p, p + i)
    {
      ap[p + i] := x[i];
    }
    return p + |x|;
  }

  /** Two pieces, one behind the other. */
  method PutTwo(ap: array<byte>, p: nat, x: Str, y: Str) returns (q: nat)
    requires p + |x| + |y| <= ap.Length
    modifies ap
    ensures q == p + |x| + |y| && At(ap[..], p, x + y) && Outside(old(ap[..]), ap[..], p, q)
  {
    hide At, Outside;
    ghost var b := ap[..];
    q := Put(ap, p, x);
    ghost var c := ap[..];
    q := Put(ap, q, y);
    AtKept(c, ap[..], p, x, p + |x|, q);
    AtJoin(ap[..], p, x, y);
    OutsideJoin(b, c, ap[..], p, p + |x|, q);
  }

  /** `pstring` */
  method PString(ap: array<byte>, p: nat, s: Str) returns (q: nat)
    requires p + |EncodeText(s)| <= ap.Length
    modifies ap
    ensures q == p + |EncodeText(s)| && At(ap[..], p, EncodeText(s)) && Outside(old(ap[..]), ap[..], p, q)
  {
    q := PutTwo(ap, p, Le(|s|, 2), s);
  }

  /** `pqid` */
  method PQid(ap: array<byte>, p: nat, x: Qid) returns (q: nat)
    requires p + |EncodeQid(x)| <= ap.Length
    modifies ap
    ensures q == p + |EncodeQid(x)| && At(ap[..], p, EncodeQid(x)) && Outside(old(ap[..]), ap[..], p, q)
  {
    hide At, Outside, Le;
    ghost var b := ap[..];
    q := PutTwo(ap, p, Le(x.kind, 1), Le(x.vers, 4));
    ghost var c, mid := ap[..], q;
    q := Put(ap, q, Le(x.path, 8));
    AtKept(c, ap[..], p, Le(x.kind, 1) + Le(x.vers, 4), mid, q);
    AtJoin(ap[..], p, Le(x.kind, 1) + Le(x.vers, 4), Le(x.path, 8));
    OutsideJoin(b, c, ap[..], p, mid, q);
  }

  lemma Assoc(x: Str, y: Str, z: Str)
    ensures x + (y + z) == (x + y) + z
  {
  }

  lemma TextsRest(l: seq<Str>, i: nat)
    requires i <= |l|
    ensures EncodeTexts(l[i..]) == if i == |l| then [] else EncodeText(l[i]) + EncodeTexts(l[i + 1..])
  {
    if i < |l| { assert l[i..][1..] == l[i + 1..]; }
    hide EncodeText;
  }

  method PStrings(ap: array<byte>, p: nat, l: seq<Str>) returns (q: nat)
    requires p + |EncodeTexts(l)| <= ap.Length
    modifies ap
    ensures q == p + |EncodeTexts(l)| && At(ap[..], p, EncodeTexts(l)) && Outside(old(ap[..]), ap[..], p, q)
  {
    q := p;
    ghost var done: Str := [];
    assert l[0..] == l && done + EncodeTexts(l) == EncodeTexts(l);
    hide EncodeTexts, EncodeText;
    for i := 0 to |l|
      invariant done + EncodeTexts(l[i..]) == EncodeTexts(l)
      invariant q == p + |done| && At(ap[..], p, done) && Outside(old(ap[..]), ap[..], p, q)
    {
      TextsRest(l, i);
      ghost var b, mid := ap[..], q;
      q := PString(ap, q, l[i]);
      hide At, Outside;
      AtKept(b, ap[..], p, done, mid, q);
      AtJoin(ap[..], p, done, EncodeText(l[i]));
      OutsideJoin(old(ap[..]), b, ap[..], p, mid, q);
      Assoc(done, EncodeText(l[i]), EncodeTexts(l[i + 1..]));
      done := done + EncodeText(l[i]);
    }
    TextsRest(l, |l|);
    assert done + [] == done;
  }

  lemma QidsRest(l: seq<Qid>, i: nat)
    requires i <= |l|
    ensures EncodeQids(l[i..]) == if i == |l| then [] else EncodeQid(l[i]) + EncodeQids(l[i + 1..])
  {
    if i < |l| { assert l[i..][1..] == l[i + 1..]; }
    hide EncodeQid;
  }

  method PQids(ap: array<byte>, p: nat, l: seq<Qid>) returns (q: nat)
    requires p + |EncodeQids(l)| <= ap.Length
    modifies ap
    ensures q == p + |EncodeQids(l)| && At(ap[..], p, EncodeQids(l)) && Outside(old(ap[..]), ap[..], p, q)
  {
    q := p;
    ghost var done: Str := [];
    assert l[0..] == l && done + EncodeQids(l) == EncodeQids(l);
    hide EncodeQids, EncodeQid;
    for i := 0 to |l|
      invariant done + EncodeQids(l[i..]) == EncodeQids(l)
      invariant q == p + |done| && At(ap[..], p, done) && Outside(old(ap[..]), ap[..], p, q)
    {
      QidsRest(l, i);
      ghost var b, mid := ap[..], q;
      q := PQid(ap, q, l[i]);
      hide At, Outside;
      AtKept(b, ap[..], p, done, mid, q);
      AtJoin(ap[..], p, done, EncodeQid(l[i]));
      OutsideJoin(old(ap[..]), b, ap[..], p, mid, q);
      Assoc(done, EncodeQid(l[i]), EncodeQids(l[i + 1..]));
      done := done + EncodeQid(l[i]);
    }
    QidsRest(l, |l|);
    assert done + [] == done;
  }

  /** A list is not longer than the place for it. */
  predicate Listed(f: Field) {
    match f
    case Names(l) => |l| <= MAXWELEM
    case Qids(l) => |l| <= MAXWELEM
    case _ => true
  }

  /** One part of the switch of convS2M; false if a list is too long. */
  method PField(ap: array<byte>, p: nat, f: Field) returns (ok: bool, q: nat)
    requires p + |EncodeField(f)| <= ap.Length
    modifies ap
    ensures ok == Listed(f)
    ensures ok ==> q == p + |EncodeField(f)| && At(ap[..], p, EncodeField(f)) && Outside(old(ap[..]), ap[..], p, q)
    ensures Outside(old(ap[..]), ap[..], p, p + |EncodeField(f)|)
  {
    ok := true;
    hide At, Le, EncodeText, EncodeQid, EncodeTexts, EncodeQids;
    match f
    case I8(n) => q := Put(ap, p, Le(n, 1));
    case I16(n) => q := Put(ap, p, Le(n, 2));
    case I32(n) => q := Put(ap, p, Le(n, 4));
    case I64(n) => q := Put(ap, p, Le(n, 8));
    case Text(s) => q := PString(ap, p, s);
    case AQid(x) => q := PQid(ap, p, x);
    case Data(s) => q := PutTwo(ap, p, Le(|s|, 4), s);
    case Stat(s) => q := PutTwo(ap, p, Le(|s|, 2), s);
    case Names(l) =>
      ghost var b := ap[..];
      q := Put(ap, p, Le(|l|, 2));
      if |l| > MAXWELEM { return false, q; }
      ghost var c, mid := ap[..], q;
      q := PStrings(ap, q, l);
      AtKept(c, ap[..], p, Le(|l|, 2), mid, q);
      AtJoin(ap[..], p, Le(|l|, 2), EncodeTexts(l));
    case Qids(l) =>
      ghost var b := ap[..];
      q := Put(ap, p, Le(|l|, 2));
      if |l| > MAXWELEM { return false, q; }
      ghost var c, mid := ap[..], q;
      q := PQids(ap, q, l);
      AtKept(c, ap[..], p, Le(|l|, 2), mid, q);
      AtJoin(ap[..], p, Le(|l|, 2), EncodeQids(l));
  }

  /** `sizeS2M`: the length of the message, and 0 for an unknown type. */
  method SizeS2M(m: Fcall) returns (n: nat)
    ensures n == if Format(m.kind) == None then 0 else |Encode(m)|
  {
    if Format(m.kind) == None { return 0; }
    HeadLong(m);
    n := 4 + 1 + 2;
    var l := m.fields;
    hide EncodeFields, EncodeField, Encode;
    assert l[0..] == l;
    for i := 0 to |l|
      invariant n + |EncodeFields(l[i..])| == |Encode(m)|
    {
      FieldsRest(l, i);
      var k := FieldSize(l[i]);
      n := n + k;
    }
    FieldsRest(l, |l|);
  }

  lemma FieldsRest(l: seq<Field>, i: nat)
    requires i <= |l|
    ensures EncodeFields(l[i..]) == if i == |l| then [] else EncodeField(l[i]) + EncodeFields(l[i + 1..])
  {
    if i < |l| { assert l[i..][1..] == l[i + 1..]; }
    hide EncodeField;
  }

  method FieldSize(f: Field) returns (n: nat)
    ensures n == |EncodeField(f)|
  {
    hide EncodeTexts, EncodeQids;
    match f
    case I8(_) => n := 1;
    case I16(_) => n := 2;
    case I32(_) => n := 4;
    case I64(_) => n := 8;
    case Text(s) => n := 2 + |s|;
    case AQid(_) => n := 13;
    case Data(s) => n := 4 + |s|;
    case Stat(s) => n := 2 + |s|;
    case Qids(l) =>
      n := 2 + 13 * |l|;
      QidsLength(l);
    case Names(l) =>
      n := 2;
      assert l[0..] == l;
      for i := 0 to |l|
        invariant n + |EncodeTexts(l[i..])| == 2 + |EncodeTexts(l)|
      {
        TextsRest(l, i);
        n := n + 2 + |l[i]|;
      }
      TextsRest(l, |l|);
  }

  lemma {:induction false} QidsLength(l: seq<Qid>)
    ensures |EncodeQids(l)| == 13 * |l|
  {
    if l != [] { QidsLength(l[1..]); }
  }

  /** `convS2M`: the message, if it is of a known type, its lists are not too
      long and there is room for it; then exactly its bytes are written. */
  method ConvS2M(m: Fcall, ap: array<byte>, nap: nat) returns (size: nat)
    requires nap <= ap.Length
    modifies ap
    ensures size == if Format(m.kind).Some? && |Encode(m)| <= nap && AllListed(m.fields) then |Encode(m)| else 0
    ensures size > 0 ==> At(ap[..], 0, Encode(m))
    ensures Outside(old(ap[..]), ap[..], 0, nap)
    ensures Outside(old(ap[..]), ap[..], 0, |Encode(m)|)
  {
    hide Encode, At, EncodeFields, Format, AllListed, Le;
    size := SizeS2M(m);
    HeadLong(m);
    HeadIs(m);
    if size == 0 || size > nap { return 0; }
    ghost var b := ap[..];
    var p := PHead(ap, size, m.kind, m.tag);
    ghost var c := ap[..];
    var ok;
    ok, p := PFields(ap, p, m.fields, Le(size, 4) + Le(m.kind, 1) + Le(m.tag, 2));
    OutsideJoin(b, c, ap[..], 0, 7, size);
    if !ok { return 0; }
  }

  method PHead(ap: array<byte>, size: nat, kind: int, tag: int) returns (p: nat)
    requires 7 <= ap.Length
    modifies ap
    ensures p == 7 && At(ap[..], 0, Le(size, 4) + Le(kind, 1) + Le(tag, 2)) && Outside(old(ap[..]), ap[..], 0, 7)
    ensures |Le(size, 4) + Le(kind, 1) + Le(tag, 2)| == 7
  {
    ghost var b := ap[..];
    p := PutTwo(ap, 0, Le(size, 4), Le(kind, 1));
    ghost var c := ap[..];
    hide At, Outside;
    p := Put(ap, p, Le(tag, 2));
    AtKept(c, ap[..], 0, Le(size, 4) + Le(kind, 1), 5, 7);
    AtJoin(ap[..], 0, Le(size, 4) + Le(kind, 1), Le(tag, 2));
    OutsideJoin(b, c, ap[..], 0, 5, 7);
  }

  predicate AllListed(l: seq<Field>) {
    forall i :: 0 <= i < |l| ==> Listed(l[i])
  }

  lemma HeadLong(m: Fcall)
    ensures |Encode(m)| == 7 + |EncodeFields(m.fields)|
  {
  }

  lemma HeadIs(m: Fcall)
    ensures Encode(m) == Le(|Encode(m)|, 4) + Le(m.kind, 1) + Le(m.tag, 2) + EncodeFields(m.fields)
  {
    hide EncodeFields, Le;
    assert |Encode(m)| == 7 + |EncodeFields(m.fields)| by { HeadLong(m); }
  }

  /** One more part behind those that are done. */
  method PNext(ap: array<byte>, p: nat, f: Field, ghost done: Str, ghost was: Str, ghost lo: nat) returns (ok: bool, q: nat)
    requires p == |done| && p + |EncodeField(f)| <= ap.Length && At(ap[..], 0, done) && Outside(was, ap[..], lo, p) && lo <= p
    modifies ap
    ensures ok == Listed(f) && Outside(was, ap[..], lo, p + |EncodeField(f)|)
    ensures ok ==> q == p + |EncodeField(f)| && At(ap[..], 0, done + EncodeField(f))
  {
    hide EncodeField, At, Listed, Outside;
    ghost var b := ap[..];
    ok, q := PField(ap, p, f);
    OutsideJoin(was, b, ap[..], lo, p, p + |EncodeField(f)|);
    if ok {
      AtKept(b, ap[..], 0, done, p, q);
      AtBoth(ap[..], 0, done, p, EncodeField(f));
    }
  }

  /** What is done, and the fields from the i-th on, make up the whole. */
  ghost predicate Left(done: Str, l: seq<Field>, i: nat, head: Str) {
    i <= |l| && done + EncodeFields(l[i..]) == head + EncodeFields(l)
  }

  lemma LeftMore(done: Str, l: seq<Field>, i: nat, head: Str)
    requires i < |l| && Left(done, l, i, head)
    ensures Left(done + EncodeField(l[i]), l, i + 1, head)
    ensures |done| + |EncodeField(l[i])| <= |head| + |EncodeFields(l)|
  {
    FieldsRest(l, i);
    Assoc(done, EncodeField(l[i]), EncodeFields(l[i + 1..]));
    var x, y := done + EncodeField(l[i]), EncodeFields(l[i + 1..]);
    hide EncodeFields, EncodeField;
    assert |x + y| == |x| + |y|;
  }

  lemma LeftAll(done: Str, l: seq<Field>, head: Str)
    ensures Left(done, l, |l|, head) ==> done == head + EncodeFields(l) && |done| == |head| + |EncodeFields(l)|
    ensures Left(head, l, 0, head)
  {
    FieldsRest(l, |l|);
    hide EncodeFields;
    assert l[0..] == l && done + [] == done;
  }

  /** The parts of the message behind its head. */
  method PFields(ap: array<byte>, p: nat, l: seq<Field>, ghost head: Str) returns (ok: bool, q: nat)
    requires p + |EncodeFields(l)| <= ap.Length && p == |head| && At(ap[..], 0, head)
    modifies ap
    ensures ok == AllListed(l)
    ensures ok ==> q == p + |EncodeFields(l)| && At(ap[..], 0, head + EncodeFields(l))
    ensures Outside(old(ap[..]), ap[..], p, p + |EncodeFields(l)|)
  {
    ok, q := true, p;
    ghost var done, was, top := head, ap[..], p + |EncodeFields(l)|;
    hide EncodeFields, EncodeField, At, Listed, Outside, Left;
    SelfOutside(ap[..], p);
    LeftAll(head, l, head);
    for i := 0 to |l|
      invariant ok && Left(done, l, i, head) && q == |done| && p <= q <= top
      invariant At(ap[..], 0, done) && Outside(was, ap[..], p, q)
      invariant forall j :: 0 <= j < i ==> Listed(l[j])
    {
      LeftMore(done, l, i, head);
      ghost var x, mid := EncodeField(l[i]), q;
      ok, q := PNext(ap, q, l[i], done, was, p);
      if !ok {
        OutsideMore(was, ap[..], p, mid + |x|, top);
        return;
      }
      done := done + x;
    }
    LeftAll(done, l, head);
    assert q == top;
  }

  // ------------------------------------------------------------------
  // Reading

  /** What is read does not depend on what is before it. */
  ghost predicate Agree(b: Str, b': Str, p: int) {
    |b'| == |b| && forall i :: p <= i < |b| && 0 <= i ==> b'[i] == b[i]
  }

  lemma {:induction false} UnLeSame(b: Str, b': Str, p: nat, k: nat)
    requires Agree(b, b', p) && p + k <= |b|
    ensures UnLe(b, p, k) == UnLe(b', p, k)
    decreases k
  {
    if k > 0 { UnLeSame(b, b', p + 1, k - 1); }
  }

  lemma BytesSame(b: Str, b': Str, p: nat, k: nat)
    requires Agree(b, b', p)
    ensures TakeBytes(b, p, k) == TakeBytes(b', p, k)
  {
    if p + k <= |b| {
      UnLeSame(b, b', p, k);
      var n := UnLe(b, p, k);
      if p + k + n <= |b| { assert b[p + k..p + k + n] == b'[p + k..p + k + n]; }
    }
  }

  lemma QidSame(b: Str, b': Str, p: nat)
    requires Agree(b, b', p)
    ensures TakeQid(b, p) == TakeQid(b', p)
  {
    if p + 13 <= |b| {
      UnLeSame(b, b', p, 1);
      UnLeSame(b, b', p + 1, 4);
      UnLeSame(b, b', p + 5, 8);
    }
  }

  lemma {:induction false} TextsSame(b: Str, b': Str, p: nat, n: nat)
    requires Agree(b, b', p)
    ensures TakeTexts(b, p, n) == TakeTexts(b', p, n)
    decreases n
  {
    BytesSame(b, b', p, 2);
    hide TakeBytes;
    if n > 0 && TakeBytes(b, p, 2).TextAt? {
      NextIs(b, p);
      TextsSame(b, b', TakeBytes(b, p, 2).next, n - 1);
    }
  }

  lemma NextIs(b: Str, p: nat)
    requires TakeBytes(b, p, 2).TextAt?
    ensures p + 2 <= TakeBytes(b, p, 2).next <= |b|
  {
  }

  lemma {:induction false} QidsSame(b: Str, b': Str, p: nat, n: nat)
    requires Agree(b, b', p)
    ensures TakeQids(b, p, n) == TakeQids(b', p, n)
    decreases n
  {
    QidSame(b, b', p);
    if n > 0 && TakeQid(b, p).QidAt? { QidsSame(b, b', p + 13, n - 1); }
  }

  lemma FieldSame(k: Kind, b: Str, b': Str, p: nat)
    requires Agree(b, b', p)
    ensures Take(k, b, p) == Take(k, b', p)
  {
    hide UnLe, TakeBytes, TakeQid, TakeTexts, TakeQids;
    match k
    case K8 => if p + 1 <= |b| { UnLeSame(b, b', p, 1); }
    case K16 => if p + 2 <= |b| { UnLeSame(b, b', p, 2); }
    case K32 => if p + 4 <= |b| { UnLeSame(b, b', p, 4); }
    case K64 => if p + 8 <= |b| { UnLeSame(b, b', p, 8); }
    case KText => BytesSame(b, b', p, 2);
    case KQid => QidSame(b, b', p);
    case KNames =>
      if p + 2 <= |b| {
        UnLeSame(b, b', p, 2);
        TextsSame(b, b', p + 2, UnLe(b, p, 2));
      }
    case KQids =>
      if p + 2 <= |b| {
        UnLeSame(b, b', p, 2);
        QidsSame(b, b', p + 2, UnLe(b, p, 2));
      }
    case KData => BytesSame(b, b', p, 4);
    case KStat => BytesSame(b, b', p, 2);
  }

  lemma {:induction false} FieldsSame(ks: seq<Kind>, b: Str, b': Str, p: nat)
    requires Agree(b, b', p) && p <= |b|
    ensures TakeFields(ks, b, p) == TakeFields(ks, b', p)
    decreases |ks|
  {
    if ks != [] {
      FieldSame(ks[0], b, b', p);
      if Take(ks[0], b, p).FieldAt? {
        FieldWritten(ks[0], b, p);
        hide Take, At, EncodeField, Fits;
        FieldsSame(ks[1..], b, b', Take(ks[0], b, p).next);
      }
    }
  }

  /** What f points to: numbers are stored in it, bytes and strings are left where
      they are in the buffer, each from a place on and so long. */
  datatype Part = Stored(f: Field) | Slice(k: Kind, off: nat, n: nat) | Slices(l: seq<(nat, nat)>)

  /** The string from off on, n bytes long and with a NUL behind it, ends before
      place p. */
  ghost predicate Terminated(b: Str, off: int, n: int, p: int) {
    0 <= off && 0 <= n && off + n < p <= |b| && b[off + n] == 0
  }

  function Sub(b: Str, off: int, n: int): Str {
    if 0 <= off && 0 <= n && off + n <= |b| then b[off..off + n] else []
  }

  /** The part stands for the field, and lies before place p. */
  ghost predicate Holds(b: Str, x: Part, f: Field, p: int) {
    match x
    case Stored(g) => f == g
    case Slice(k, off, n) =>
      if k == KText then f == Text(Sub(b, off, n)) && Terminated(b, off, n, p)
      else off + n <= p <= |b| && ((k == KData && f == Data(Sub(b, off, n))) || (k == KStat && f == Stat(Sub(b, off, n))))
    case Slices(l) =>
      f.Names? && |f.names| == |l|
      && forall i :: 0 <= i < |l| ==> f.names[i] == Sub(b, l[i].0, l[i].1) && Terminated(b, l[i].0, l[i].1, p)
  }

  /** A part is not touched by what is done from its end on. */
  lemma HoldsStill(b: Str, b': Str, x: Part, f: Field, p: int, hi: int)
    requires Holds(b, x, f, p) && Outside(b, b', p, hi) && p <= hi <= |b|
    ensures Holds(b', x, f, hi)
  {
    match x
    case Stored(_) =>
    case Slice(k, off, n) => SubSame(b, b', off, n, p, hi);
    case Slices(l) =>
      forall i | 0 <= i < |l| ensures Sub(b', l[i].0, l[i].1) == Sub(b, l[i].0, l[i].1) && Terminated(b', l[i].0, l[i].1, hi) {
        SubSame(b, b', l[i].0, l[i].1, p, hi);
      }
  }

  lemma SubSame(b: Str, b': Str, off: int, n: int, p: int, hi: int)
    requires Outside(b, b', p, hi) && off + n <= p <= hi <= |b|
    ensures Sub(b', off, n) == Sub(b, off, n)
  {
    if 0 <= off && 0 <= n { assert b'[off..off + n] == b[off..off + n]; }
  }

  /** `gstring`: the string moves down over its count, and a NUL is put behind
      it. */
  method GString(ap: array<byte>, p: nat, ep: nat) returns (q: int, off: nat, n: nat)
    requires p <= ep <= ap.Length
    modifies ap
    ensures q == -1 || q >= 0
    ensures var r := TakeBytes(old(ap[..ep]), p, 2);
            && (q == -1 <==> r.NoText?)
            && (q >= 0 ==> q == r.next <= ep && r.s == Sub(ap[..], off, n) && Terminated(ap[..], off, n, q) && p < off)
    ensures Outside(old(ap[..]), ap[..], p, if q >= 0 then q else p)
  {
    q, off, n := -1, 0, 0;
    if p + 2 > ep { return; }
    ghost var b := ap[..ep];
    n := UnLe(ap[..ep], p, 2);
    var t := p + 1;
    if t + n + 1 > ep { n := 0; return; }
    for i := 0 to n
      invariant forall j :: t <= j < t + i ==> ap[j] == old(ap[..])[j + 1]
      invariant forall j :: 0 <= j < ap.Length && (j < t || j >= t + i) ==> ap[j] == old(ap[..])[j]
    {
      ap[t + i] := ap[t + 1 + i];
    }
    ap[t + n] := 0;
    off, q := t, t + n + 1;
    assert TakeBytes(b, p, 2).s == b[p + 2..p + 2 + n];
    assert Sub(ap[..], off, n) == ap[..][t..t + n];
    assert b[p + 2..p + 2 + n] == ap[..][t..t + n];
    hide UnLe;
  }

  /** `gqid` */
  method GQid(ap: array<byte>, p: nat, ep: nat) returns (q: int, x: Qid)
    requires p <= ep <= ap.Length
    ensures var r := TakeQid(ap[..ep], p);
            q >= -1 && (q == -1 <==> r.NoQid?) && (q >= 0 ==> q == r.next <= ep && x == r.q)
  {
    q, x := -1, Qid(0, 0, 0);
    if p + 13 > ep { return; }
    var b := ap[..ep];
    x := Qid(UnLe(b, p, 1), UnLe(b, p + 1, 4), UnLe(b, p + 5, 8));
    q := p + 13;
  }

  lemma PrefixOutside(b: Str, b': Str, lo: int, hi: int, ep: nat)
    requires Outside(b, b', lo, hi) && ep <= |b|
    ensures Agree(b[..ep], b'[..ep], hi)
  {
  }

  /** The strings read so far, and those still to come. */
  ghost predicate TextsLeft(all: TextsAt, got: seq<Str>, b: Str, q: nat, n: nat) {
    var r := TakeTexts(b, q, n);
    all == if r.NoTexts? then NoTexts else TextsAt(got + r.l, r.next)
  }

  lemma TextsLeftMore(all: TextsAt, got: seq<Str>, b: Str, b': Str, q: nat, n: nat)
    requires n > 0 && TextsLeft(all, got, b, q, n)
    ensures TakeBytes(b, q, 2).NoText? ==> all == NoTexts
    ensures var r := TakeBytes(b, q, 2);
            r.TextAt? && Agree(b, b', r.next) ==> TextsLeft(all, got + [r.s], b', r.next, n - 1)
  {
    hide TakeBytes;
    var r := TakeBytes(b, q, 2);
    if r.TextAt? && Agree(b, b', r.next) {
      TextsSame(b, b', r.next, n - 1);
      var t := TakeTexts(b, r.next, n - 1);
      if t.TextsAt? { assert got + ([r.s] + t.l) == got + [r.s] + t.l; }
    }
  }

  /** The names of Twalk. */
  method GStrings(ap: array<byte>, p: nat, ep: nat, n: nat) returns (q: int, l: seq<(nat, nat)>)
    requires p <= ep <= ap.Length
    modifies ap
    ensures var r := TakeTexts(old(ap[..ep]), p, n);
            && q >= -1 && (q == -1 <==> r.NoTexts?)
            && (q >= 0 ==> q == r.next <= ep && Holds(ap[..], Slices(l), Names(r.l), q))
    ensures p <= q || q == -1
    ensures Outside(old(ap[..]), ap[..], p, if q >= 0 then q else ep)
  {
    q, l := p, [];
    ghost var all, got: seq<Str> := TakeTexts(ap[..ep], p, n), [];
    assert TextsLeft(all, got, ap[..ep], p, n) by { NothingYet(ap[..ep], p, n); }
    SelfOutside(ap[..], p);
    assert Holds(ap[..], Slices(l), Names(got), q);
    hide TakeTexts, TakeBytes, Outside, TextsLeft, Holds, Terminated, Sub, Agree;
    for i := 0 to n
      invariant p <= q <= ep && TextsLeft(all, got, ap[..ep], q, n - i)
      invariant Holds(ap[..], Slices(l), Names(got), q) && |l| == i
      invariant Outside(old(ap[..]), ap[..], p, q)
    {
      ghost var b, was := ap[..], q;
      var off, k;
      q, off, k := GString(ap, q, ep);
      if q < 0 {
        TextsLeftMore(all, got, b[..ep], b[..ep], was, n - i);
        OutsideJoin(old(ap[..]), b, ap[..], p, was, was);
        OutsideMore(old(ap[..]), ap[..], p, was, ep);
        return;
      }
      PrefixOutside(b, ap[..], was, q, ep);
      TextsLeftMore(all, got, b[..ep], ap[..ep], was, n - i);
      HoldsStill(b, ap[..], Slices(l), Names(got), was, q);
      OutsideJoin(old(ap[..]), b, ap[..], p, was, q);
      SlicesMore(ap[..], l, got, off, k, q);
      l := l + [(off, k)];
      got := got + [Sub(ap[..], off, k)];
    }
    AllThere(all, got, ap[..ep], q);
  }

  lemma SlicesMore(b: Str, l: seq<(nat, nat)>, got: seq<Str>, off: nat, n: nat, q: int)
    requires Holds(b, Slices(l), Names(got), q) && Terminated(b, off, n, q)
    ensures Holds(b, Slices(l + [(off, n)]), Names(got + [Sub(b, off, n)]), q)
  {
    hide Terminated, Sub;
  }

  lemma NothingYet(b: Str, p: nat, n: nat)
    ensures TextsLeft(TakeTexts(b, p, n), [], b, p, n)
  {
    var r := TakeTexts(b, p, n);
    if r.TextsAt? { assert [] + r.l == r.l; }
  }

  lemma AllThere(all: TextsAt, got: seq<Str>, b: Str, q: nat)
    requires TextsLeft(all, got, b, q, 0)
    ensures all == TextsAt(got, q)
  {
    assert got + [] == got;
  }

  /** The qids of Rwalk. */
  method GQids(ap: array<byte>, p: nat, ep: nat, n: nat) returns (q: int, l: seq<Qid>)
    requires p <= ep <= ap.Length
    ensures var r := TakeQids(ap[..ep], p, n);
            q >= -1 && (q == -1 <==> r.NoQids?) && (q >= 0 ==> q == r.next <= ep && l == r.l)
  {
    q, l := p, [];
    ghost var b := ap[..ep];
    assert forall t: seq<Qid> :: [] + t == t;
    hide TakeQid;
    for i := 0 to n
      invariant p <= q <= ep
      invariant var r := TakeQids(b, q, n - i);
                TakeQids(b, p, n) == if r.NoQids? then NoQids else QidsAt(l + r.l, r.next)
    {
      ghost var was, left := q, l;
      var x;
      q, x := GQid(ap, q, ep);
      if q < 0 { return; }
      QidsMore(b, was, n - i, left);
      l := l + [x];
    }
    assert l + [] == l;
  }

  lemma QidsMore(b: Str, q: nat, n: nat, got: seq<Qid>)
    requires n > 0 && TakeQid(b, q).QidAt?
    ensures var x, r := TakeQid(b, q), TakeQids(b, q, n);
            var t := TakeQids(b, x.next, n - 1);
            r.NoQids? == t.NoQids? && (r.QidsAt? ==> got + r.l == got + [x.q] + t.l && r.next == t.next)
  {
    hide TakeQid;
    var x := TakeQid(b, q);
    var t := TakeQids(b, x.next, n - 1);
    if t.QidsAt? { assert got + ([x.q] + t.l) == got + [x.q] + t.l; }
  }

  /** A number of k bytes. */
  method GNumber(ap: array<byte>, p: nat, ep: nat, k: nat) returns (q: int, n: int)
    requires p <= ep <= ap.Length
    ensures q == (if p + k > ep then -1 else p + k)
    ensures q >= 0 ==> n == UnLe(ap[..ep], p, k)
  {
    q, n := -1, 0;
    if p + k <= ep { q, n := p + k, UnLe(ap[..ep], p, k); }
  }

  /** Counted bytes, which stay where they are. */
  method GBytes(ap: array<byte>, p: nat, ep: nat, k: nat) returns (q: int, off: nat, n: nat)
    requires p <= ep <= ap.Length
    ensures var r := TakeBytes(ap[..ep], p, k);
            && q >= -1 && (q == -1 <==> r.NoText?)
            && (q >= 0 ==> q == r.next <= ep && r.s == Sub(ap[..], off, n) && off + n <= q)
  {
    q, off, n := -1, 0, 0;
    if p + k > ep { return; }
    n := UnLe(ap[..ep], p, k);
    if p + k + n > ep { n := 0; return; }
    off, q := p + k, p + k + n;
    assert ap[..ep][p + k..p + k + n] == ap[..][off..off + n];
  }

  /** One part of the switch of convM2S. */
  method GField(ap: array<byte>, p: nat, ep: nat, k: Kind) returns (q: int, x: Part)
    requires p <= ep <= ap.Length
    modifies ap
    ensures var r := Take(k, old(ap[..ep]), p);
            && q >= -1 && (q == -1 <==> r.NoField?)
            && (q >= 0 ==> q == r.next <= ep && Holds(ap[..], x, r.f, q))
    ensures p <= q || q == -1
    ensures Outside(old(ap[..]), ap[..], p, if q >= 0 then q else ep)
  {
    x := Stored(I8(0));
    var n, off, len, d, l;
    hide UnLe, TakeBytes, TakeQid, TakeTexts, TakeQids;
    match k
    case K8 =>
      q, n := GNumber(ap, p, ep, 1);
      x := Stored(I8(n));
    case K16 =>
      q, n := GNumber(ap, p, ep, 2);
      x := Stored(I16(n));
    case K32 =>
      q, n := GNumber(ap, p, ep, 4);
      x := Stored(I32(n));
    case K64 =>
      q, n := GNumber(ap, p, ep, 8);
      x := Stored(I64(n));
    case KText =>
      ghost var b := ap[..];
      TextNext(b[..ep], p, 2);
      q, off, len := GString(ap, p, ep);
      x := Slice(KText, off, len);
      if q < 0 { OutsideMore(b, ap[..], p, p, ep); }
    case KQid =>
      QidNext(ap[..ep], p);
      q, d := GQid(ap, p, ep);
      x := Stored(AQid(d));
    case KNames =>
      q, n := GNumber(ap, p, ep, 2);
      if q < 0 { return; }
      if n > MAXWELEM { return -1, x; }
      ghost var b := ap[..];
      q, l := GStrings(ap, q, ep, n);
      x := Slices(l);
      OutsideLess(b, ap[..], p + 2, if q >= 0 then q else ep, p);
    case KQids =>
      q, n := GNumber(ap, p, ep, 2);
      if q < 0 { return; }
      if n > MAXWELEM { return -1, x; }
      var m;
      QidsNext(ap[..ep], q, n);
      q, m := GQids(ap, q, ep, n);
      x := Stored(Qids(m));
    case KData =>
      TextNext(ap[..ep], p, 4);
      q, off, len := GBytes(ap, p, ep, 4);
      x := Slice(KData, off, len);
    case KStat =>
      TextNext(ap[..ep], p, 2);
      q, off, len := GBytes(ap, p, ep, 2);
      x := Slice(KStat, off, len);
  }

  lemma TextNext(b: Str, p: nat, k: nat)
    ensures TakeBytes(b, p, k).TextAt? ==> TakeBytes(b, p, k).next >= p
  {
  }

  lemma QidNext(b: Str, p: nat)
    ensures TakeQid(b, p).QidAt? ==> TakeQid(b, p).next >= p
  {
  }

  lemma {:induction false} QidsNext(b: Str, p: nat, n: nat)
    ensures TakeQids(b, p, n).QidsAt? ==> TakeQids(b, p, n).next >= p
    decreases n
  {
    if n > 0 && TakeQid(b, p).QidAt? { QidsNext(b, p + 13, n - 1); }
  }

  lemma OutsideLess(b: Str, b': Str, lo: int, hi: int, lower: int)
    requires Outside(b, b', lo, hi) && lower <= lo
    ensures Outside(b, b', lower, hi)
  {
  }

  /** The fields read so far, and those still to come. */
  ghost predicate FieldsLeft(all: FieldsAt, got: seq<Field>, ks: seq<Kind>, b: Str, q: nat) {
    var r := TakeFields(ks, b, q);
    all == if r.NoFields? then NoFields else FieldsAt(got + r.l, r.next)
  }

  lemma FieldsLeftMore(all: FieldsAt, got: seq<Field>, ks: seq<Kind>, b: Str, b': Str, q: nat)
    requires ks != [] && FieldsLeft(all, got, ks, b, q)
    ensures Take(ks[0], b, q).NoField? ==> all == NoFields
    ensures var r := Take(ks[0], b, q);
            r.FieldAt? && r.next <= |b| && Agree(b, b', r.next) ==> FieldsLeft(all, got + [r.f], ks[1..], b', r.next)
  {
    hide Take;
    var r := Take(ks[0], b, q);
    if r.FieldAt? && r.next <= |b| && Agree(b, b', r.next) {
      FieldsSame(ks[1..], b, b', r.next);
      var t := TakeFields(ks[1..], b, r.next);
      if t.FieldsAt? { assert got + ([r.f] + t.l) == got + [r.f] + t.l; }
    }
  }

  lemma NoFieldsYet(ks: seq<Kind>, b: Str, p: nat)
    ensures FieldsLeft(TakeFields(ks, b, p), [], ks, b, p)
  {
    var r := TakeFields(ks, b, p);
    if r.FieldsAt? { assert [] + r.l == r.l; }
  }

  lemma AllFields(all: FieldsAt, got: seq<Field>, b: Str, q: nat)
    requires FieldsLeft(all, got, [], b, q)
    ensures all == FieldsAt(got, q)
  {
    assert got + [] == got;
  }

  /** The parts stand for the fields. */
  ghost predicate AllHold(b: Str, xs: seq<Part>, fs: seq<Field>, p: int) {
    |xs| == |fs| && forall i :: 0 <= i < |xs| ==> Holds(b, xs[i], fs[i], p)
  }

  lemma AllHoldStill(b: Str, b': Str, xs: seq<Part>, fs: seq<Field>, p: int, hi: int)
    requires AllHold(b, xs, fs, p) && Outside(b, b', p, hi) && p <= hi <= |b|
    ensures AllHold(b', xs, fs, hi)
  {
    hide Holds, Outside;
    forall i | 0 <= i < |xs| ensures Holds(b', xs[i], fs[i], hi) {
      HoldsStill(b, b', xs[i], fs[i], p, hi);
    }
  }

  /** The fields of a message, from place p on: later ones do no harm to the
      strings of earlier ones. */
  method GFields(ap: array<byte>, p: nat, ep: nat, ks: seq<Kind>) returns (q: int, xs: seq<Part>)
    requires p <= ep <= ap.Length
    modifies ap
    ensures var r := TakeFields(ks, old(ap[..ep]), p);
            && q >= -1 && (q == -1 <==> r.NoFields?)
            && (q >= 0 ==> q == r.next <= ep && AllHold(ap[..], xs, r.l, q))
    ensures Outside(old(ap[..]), ap[..], p, if q >= 0 then q else ep) && (p <= q || q == -1)
  {
    q, xs := p, [];
    ghost var all, got: seq<Field> := TakeFields(ks, ap[..ep], p), [];
    NoFieldsYet(ks, ap[..ep], p);
    SelfOutside(ap[..], p);
    assert ks[0..] == ks;
    assert AllHold(ap[..], xs, got, q);
    hide TakeFields, Take, Outside, FieldsLeft, AllHold, Holds;
    for i := 0 to |ks|
      invariant p <= q <= ep && FieldsLeft(all, got, ks[i..], ap[..ep], q)
      invariant AllHold(ap[..], xs, got, q) && Outside(old(ap[..]), ap[..], p, q)
    {
      ghost var b, was := ap[..], q;
      var x;
      q, x := GField(ap, q, ep, ks[i]);
      assert ks[i..][0] == ks[i] && ks[i..][1..] == ks[i + 1..];
      if q < 0 {
        FieldsLeftMore(all, got, ks[i..], b[..ep], b[..ep], was);
        OutsideJoin(old(ap[..]), b, ap[..], p, was, ep);
        return;
      }
      PrefixOutside(b, ap[..], was, q, ep);
      FieldsLeftMore(all, got, ks[i..], b[..ep], ap[..ep], was);
      AllHoldStill(b, ap[..], xs, got, was, q);
      OutsideJoin(old(ap[..]), b, ap[..], p, was, q);
      HoldMore(ap[..], xs, got, x, Take(ks[i], b[..ep], was).f, q);
      got := got + [Take(ks[i], b[..ep], was).f];
      xs := xs + [x];
    }
    assert ks[|ks|..] == [];
    AllFields(all, got, ap[..ep], q);
  }

  lemma HoldMore(b: Str, xs: seq<Part>, fs: seq<Field>, x: Part, f: Field, p: int)
    requires AllHold(b, xs, fs, p) && Holds(b, x, f, p)
    ensures AllHold(b, xs + [x], fs + [f], p)
  {
    hide Holds;
  }

  /** `convM2S`: what the bytes say as a message, if they are one; its strings and
      data are then in the buffer, untouched by what was read after them, and
      every string has its NUL. */
  method ConvM2S(ap: array<byte>, nap: nat) returns (size: nat, kind: int, tag: int, xs: seq<Part>)
    requires nap <= ap.Length
    modifies ap
    ensures var m := Decode(old(ap[..nap]));
            && (size == 0 <==> m == None)
            && (m.Some? ==> size == |Encode(m.value)| <= nap && kind == m.value.kind && tag == m.value.tag
                            && AllHold(ap[..], xs, m.value.fields, size))
    ensures if nap < 7 then ap[..] == old(ap[..]) else Outside(old(ap[..]), ap[..], 7, if size > 0 then size else nap)
  {
    size, kind, tag, xs := 0, 0, 0, [];
    ghost var b := ap[..nap];
    if nap < 7 { return; }
    SelfOutside(ap[..], 7);
    OutsideMore(ap[..], ap[..], 7, 7, nap);
    var n := UnLe(ap[..nap], 0, 4);
    if n < 7 { return; }
    kind, tag := ap[4], UnLe(ap[..nap], 5, 2);
    var ks := Format(kind);
    if ks == None { return; }
    hide UnLe, Format, TakeFields, AllHold, Outside, Encode;
    var q;
    q, xs := GFields(ap, 7, nap, ks.value);
    if q < 0 { return; }
    if q == n {
      size := n;
      DecodedLength(b);
    } else {
      OutsideMore(old(ap[..]), ap[..], 7, q, nap);
    }
  }

  lemma DecodedLength(b: Str)
    requires Decode(b).Some?
    ensures |Encode(Decode(b).value)| == UnLe(b, 0, 4) <= |b|
  {
    WrittenBack(b);
    assert At(b, 0, Encode(Decode(b).value));
  }

  /** What convS2M has written, convM2S gives back. */
  method ThereAndBack(m: Fcall, ap: array<byte>) returns (size: nat, kind: int, tag: int, xs: seq<Part>)
    requires WellFormed(m) && |Encode(m)| <= ap.Length
    modifies ap
    ensures size == |Encode(m)| && kind == m.kind && tag == m.tag && AllHold(ap[..], xs, m.fields, size)
  {
    AllShort(Format(m.kind).value, m.fields);
    hide Encode, At, FitAll, AllHold;
    size := ConvS2M(m, ap, ap.Length);
    ReadBack(m, ap[..]);
    assert ap[..ap.Length] == ap[..];
    var n;
    n, kind, tag, xs := ConvM2S(ap, ap.Length);
  }

  lemma {:induction false} AllShort(ks: seq<Kind>, l: seq<Field>)
    requires FitAll(ks, l)
    ensures AllListed(l)
  {
    if l != [] {
      AllShort(ks[1..], l[1..]);
      forall i | 0 <= i < |l| ensures Listed(l[i]) {
        if i > 0 { assert l[i] == l[1..][i - 1]; }
      }
    }
  }
}
