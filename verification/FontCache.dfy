/**
 The cache of character images of a font (libdraw/font.c): a character is looked
 for in a window of five slots; one that is not there takes the place of the
 oldest slot of the window, unless that was used too recently.
 */
module FontCache {
  import opened Basics

  const NFCACHE := 64
  const NFLOOK := 5
  const MAXFCACHE := 1024 + NFLOOK
  const AGES: int := 65536

  type Rune = x: int | 0 <= x < 65536

  datatype Slot = Slot(x: nat, width: byte, left: int, value: Rune, age: nat)

  /** What looking a rune up in the subfonts comes to: there is no image for it,
      not even the replacement; its subfont has to be loaded first; or these are
      its image's measures. */
  datatype Lookup = Missing | Absent | Glyph(width: byte, left: int, cell: nat, depth: int)

  /** Numbers of slots beside the NFLOOK at the end. */
  predicate Sizes(n: int) {
    n == 64 || n == 128 || n == 256 || n == 512 || n == 1024
  }

  /** Where the window of a rune starts. */
  function Hash(r: Rune, n: int): (h: nat)
    requires n > 0
    ensures h < n
  {
    (17 * r) % n
  }

  predicate InWindow(h: int, r: Rune, n: int)
    requires n > 0
  {
    Hash(r, n) <= h < Hash(r, n) + NFLOOK
  }

  /** The cache: no age beyond that of the font, and every slot in use is in the
      window of its rune, and the only one of that rune. */
  ghost predicate Sound(s: seq<Slot>, age: int) {
    && Sizes(|s| - NFLOOK)
    && (forall h :: 0 <= h < |s| ==> s[h].age <= age)
    && (forall h :: 0 <= h < |s| && s[h].age > 0 ==> InWindow(h, s[h].value, |s| - NFLOOK))
    && (forall g, h :: 0 <= g < |s| && 0 <= h < |s| && s[g].age > 0 && s[h].age > 0 && s[g].value == s[h].value ==> g == h)
  }

  /** Slot h holds r for the strings of now. */
  predicate Current(s: seq<Slot>, age: int, h: int, r: Rune) {
    0 <= h < |s| && s[h].age == age && s[h].value == r
  }

  /** The slots of the current strings are as they were. */
  ghost predicate Kept(s: seq<Slot>, s': seq<Slot>, age: int) {
    |s'| == |s| && forall h :: 0 <= h < |s| && s[h].age == age ==> s'[h] == s[h]
  }

  /** A character in the cache image: w columns from x on. */
  datatype Picture = Picture(rune: Rune, x: nat, w: nat)

  predicate Meets(p: Picture, x: nat, w: nat) {
    p.x < x + w && x < p.x + p.w
  }

  /** That is, they have a column in common. */
  lemma MeetsIs(p: Picture, x: nat, w: nat)
    requires p.w > 0 && w > 0
    ensures Meets(p, x, w) <==> exists k :: Covers(p.x, p.w, k) && Covers(x, w, k)
  {
    if Meets(p, x, w) {
      var k := if p.x <= x then x else p.x;
      assert Covers(p.x, p.w, k) && Covers(x, w, k);
    }
  }

  predicate Covers(x: nat, w: nat, k: int) { x <= k < x + w }

  function Max(a: int, b: int): int { if a < b then b else a }

  /** Where the cell of a slot starts: the field for it has 16 bits. */
  function CellAt(h: nat, width: nat): nat { (h * width) % AGES }

  class Font {
    var cache: array<Slot>
    var age: int
    var width: nat                            // asked for, of the cells of the image
    var maxdepth: int
    var image: bool                           // there is a cache image
    var pixels: nat                           // its columns,
    var bits: int                             // and how deep they are
    ghost var drawn: seq<Option<Picture>>     // what was loaded for a slot, if it lies in
                                              // the image and nothing was drawn over it

    ghost predicate Valid()
      reads this, cache
    {
      Sound(cache[..], age) && 1 <= age < AGES && |drawn| == cache.Length && Within()
    }

    /** No picture is outside the image. */
    ghost predicate Within()
      reads `drawn, `pixels
    {
      forall h :: 0 <= h < |drawn| && drawn[h].Some? ==> drawn[h].value.x + drawn[h].value.w <= pixels
    }

    constructor ()
      ensures Valid() && fresh(cache) && age == 1 && cache.Length == NFCACHE + NFLOOK && Unused(cache[..])
      ensures width == 0 && maxdepth == 0 && !image && pixels == 0 && bits == 0 && Trusty()
    {
      cache := new Slot[NFCACHE + NFLOOK](i => Slot(0, 0, 0, 0, 0));
      age, width, maxdepth, image, pixels, bits := 1, 0, 0, false, 0, 0;
      drawn := seq(NFCACHE + NFLOOK, i => None);
    }

    /** Look for r in its window. */
    method Find(r: Rune) returns (h: int)
      requires Valid()
      ensures h == -1 || (0 <= h < cache.Length && InWindow(h, r, cache.Length - NFLOOK) && cache[h].value == r
                && cache[h].age > 0)
      ensures h == -1 ==> NoneHolds(cache[..], r)
      ensures h >= 0 ==> NoneBut(cache[..], h)
    {
      var sh := Hash(r, cache.Length - NFLOOK);
      h := sh;
      while h < sh + NFLOOK
        invariant sh <= h <= sh + NFLOOK
        invariant forall i :: sh <= i < h ==> !(cache[i].value == r && cache[i].age > 0)
      {
        if cache[h].value == r && cache[h].age > 0 { return; }
        h := h + 1;
      }
      assert forall i :: 0 <= i < cache.Length && cache[i].age > 0 && cache[i].value == r ==>
               cache[..][i].value == r && sh <= i < h;
      h := -1;
    }

    /** The first of the oldest slots in the window of r. */
    method Oldest(r: Rune) returns (h: nat)
      requires Valid()
      ensures h < cache.Length && InWindow(h, r, cache.Length - NFLOOK)
      ensures forall i :: 0 <= i < cache.Length && InWindow(i, r, cache.Length - NFLOOK) ==>
                cache[h].age <= cache[i].age && (i < h ==> cache[h].age < cache[i].age)
    {
      var sh := Hash(r, cache.Length - NFLOOK);
      h := sh;
      var a := cache[sh].age;
      for th := sh + 1 to sh + NFLOOK
        invariant sh <= h < th && a == cache[h].age
        invariant forall i :: sh <= i < th ==> a <= cache[i].age && (i < h ==> a < cache[i].age)
      {
        if cache[th].age < a { h, a := th, cache[th].age; }
      }
    }

    /** The wide parts of fontresize that may fail, decided by the display: a new
        image, its set-up, and memory for a bigger cache. */
    method FontResize(wid: nat, ncache: nat, depth: int, alloc: bool, sent: bool, more: bool) returns (ret: int)
      requires Valid() && Sizes(ncache - NFLOOK)
      modifies this, cache
      ensures Valid() && age == old(age) && (cache == old(cache) || fresh(cache))
      ensures Unused(cache[..])
      ensures alloc && sent ==> width == wid && maxdepth == (if depth <= 0 then 1 else depth) && image
      ensures alloc && sent ==> pixels == ncache * wid && bits == maxdepth && forall h :: 0 <= h < |drawn| ==> drawn[h] == None
      ensures !(alloc && sent) ==> width == old(width) && maxdepth == old(maxdepth) && image == old(image)
      ensures !(alloc && sent) ==> pixels == old(pixels) && bits == old(bits) && drawn == old(drawn)
      ensures cache.Length == if alloc && sent && more then ncache else old(cache.Length)
      ensures ret == 1 || ret == 0
      ensures ret == 1 <==> alloc && sent && (ncache == old(cache.Length) || !more)
      ensures ret == 1 ==> cache == old(cache)
    {
      ret := 0;
      if alloc && sent {
        image, width, maxdepth := true, wid, if depth <= 0 then 1 else depth;
        pixels, bits := ncache * wid, maxdepth;
        ret := 1;
        if cache.Length != ncache && more {
          ret := 0;
          cache := new Slot[ncache](i => Slot(0, 0, 0, 0, 0));
        }
        drawn := seq(cache.Length, i => None);
      }
      Wipe();
    }

    method Wipe()
      requires 1 <= age < AGES && Sizes(cache.Length - NFLOOK) && |drawn| == cache.Length && Within()
      modifies cache
      ensures Valid() && Unused(cache[..])
    {
      for i := 0 to cache.Length
        invariant forall h :: 0 <= h < i ==> cache[h] == Slot(0, 0, 0, 0, 0)
      {
        cache[i] := Slot(0, 0, 0, 0, 0);
      }
    }

    /** The cell of a slot shows the rune that the slot says. */
    ghost predicate Shows(h: nat)
      requires h < cache.Length == |drawn|
      reads `cache, `drawn, `width, cache
    {
      && drawn[h].Some? && drawn[h].value.rune == cache[h].value
      && drawn[h].value.x == CellAt(h, width) && drawn[h].value.w <= width
    }

    /** What the cells show is what the slots say. */
    ghost predicate Faithful()
      reads `cache, `drawn, `width, cache
    {
      |drawn| == cache.Length && forall h :: 0 <= h < cache.Length && cache[h].age > 0 ==> Shows(h)
    }

    /** A picture of that width and depth needs a new image first. */
    predicate Needs(cell: nat, depth: int)
      reads `width, `maxdepth
    {
      width < cell || width == 0 || maxdepth < depth
    }

    /** The picture lies in the image as it is. */
    predicate Inside(h: nat, cell: nat, depth: int)
      reads `width, `pixels, `bits
    {
      CellAt(h, width) + cell <= pixels && depth <= bits
    }

    /** Loading a picture that needs no new image makes a slot in use lie: that
        slot, if the message cannot be sent or the picture is outside the image,
        or another one whose picture it is drawn over. */
    ghost predicate Spoils(h: nat, cell: nat, depth: int, buf: bool)
      requires h < cache.Length == |drawn|
      reads this, cache
    {
      if image && buf then
        || (cache[h].age > 0 && !Inside(h, cell, depth))
        || exists g :: 0 <= g < cache.Length && g != h && cache[g].age > 0 && drawn[g].Some?
            && Meets(drawn[g].value, CellAt(h, width), cell)
      else cache[h].age > 0
    }

    /** The image has room for all cells. */
    predicate Fits()
      reads `cache, `width, `pixels, `maxdepth, `bits
    {
      cache.Length * width <= pixels && maxdepth <= bits
    }

    /** The image has room for all cells, and the slots can say where they are. */
    predicate Roomy()
      reads `cache, `width, `pixels, `maxdepth, `bits
    {
      Fits() && cache.Length * width <= AGES
    }

    /** The image has room for all cells, and as long as they are all within 16
        bits, they show what they should. */
    ghost predicate Trusty()
      reads this, cache
    {
      Fits() && (Roomy() ==> Faithful())
    }

    lemma UnusedFaithful()
      requires |drawn| == cache.Length && Unused(cache[..])
      ensures Faithful()
    {
      assert forall h :: 0 <= h < cache.Length ==> cache[..][h].age == 0;
    }

    /** Then only a message that cannot be sent does harm. */
    lemma RoomySafe(h: nat, cell: nat, depth: int, buf: bool)
      requires Faithful() && Roomy() && h < cache.Length && cell <= width && depth <= maxdepth
      ensures Inside(h, cell, depth)
      ensures Spoils(h, cell, depth, buf) <==> !(image && buf) && cache[h].age > 0
    {
      CellsApart(h, h, cache.Length, width);
      forall g | 0 <= g < cache.Length && g != h && cache[g].age > 0
        ensures !Meets(drawn[g].value, CellAt(h, width), cell)
      {
        assert Shows(g);
        CellsApart(g, h, cache.Length, width);
      }
    }

    /** `loadchar` for a rune that no slot holds, into slot h; n characters of
        the current string are there already.  Nothing of them moves: a resize
        is put off until there are none. */
    method LoadChar(r: Rune, h: nat, n: nat, look: Lookup, io: Answers) returns (ld: int)
      requires Valid() && h < cache.Length && InWindow(h, r, cache.Length - NFLOOK) && cache[h].age < age
      requires NoneHolds(cache[..], r)
      modifies this, cache
      ensures Valid() && age == old(age) && (cache == old(cache) || fresh(cache)) && cache.Length == old(cache.Length)
      ensures ld == Loads(look, io, old(width), old(maxdepth), old(image), n)
      ensures ld == 1 ==> cache[h].value == r && cache[h].width == look.width && cache[h].age < age
      ensures ld == 1 ==> cache[h].x == CellAt(h, width)
      ensures ld == 1 ==> width >= look.cell && NoneBut(cache[..], h) && (Shows(h) <==> Inside(h, look.cell, look.depth))
      ensures n > 0 || !look.Glyph? ==> cache == old(cache) && Kept(old(cache[..]), cache[..], age)
      ensures ld == -1 || !look.Glyph? ==> cache[..] == old(cache[..]) && drawn == old(drawn)
      ensures Others(old(cache[..]), cache[..], h) || Unused(cache[..])
      ensures !(n == 0 && look.Glyph? && old(Needs(look.cell, look.depth))) ==> Others(old(cache[..]), cache[..], h)
      ensures look.Glyph? && old(Needs(look.cell, look.depth)) && n == 0 ==> Unused(cache[..])
      ensures look.Glyph? && !old(Needs(look.cell, look.depth)) ==>
                cache == old(cache) && Others(old(cache[..]), cache[..], h) && cache[h].value == r
                    && cache[h].age == old(cache[h].age)
                && image == old(image) && (ld == 0 ==> drawn == old(drawn))
      ensures old(Faithful()) ==>
                (Faithful() <==>
                 !(look.Glyph? && !old(Needs(look.cell, look.depth)) && old(Spoils(h, look.cell, look.depth, io.buf))))
      ensures old(Trusty()) && ld != 0 ==> Trusty() && (ld == 1 && Roomy() ==> Shows(h))
      ensures if look.Glyph? then Resized(look.cell, look.depth, n, io) else Resized(0, 0, n + 1, io)
    {
      match look
      case Missing => return 0;
      case Absent => return -1;
      case Glyph(w, left, cell, depth) =>
        ghost var was := cache[..];
        ld := Widen(cell, depth, n, io);
        if ld <= 0 { return; }
        NoneStill(was, cache[..], r);
        hide Sound, InWindow, NoneBut;
        ld := Draw(r, h, w, left, cell, depth, io.buf);
    }

    /** How widening, as far as it is needed, leaves the measures.  When the new
        image cannot be had, the width asked for stays although the image does
        not have it. */
    twostate predicate Resized(cell: nat, depth: int, n: nat, io: Answers)
      reads this
    {
      if !old(Needs(cell, depth)) || n > 0 then
        width == old(width) && maxdepth == old(maxdepth) && image == old(image) && pixels == old(pixels) && bits == old(bits)
      else
        && width == Max(old(width), cell)
        && if io.alloc && io.sent then
             image && pixels == cache.Length * width && bits == maxdepth == Max(1, Max(old(maxdepth), depth))
           else
             maxdepth == Max(old(maxdepth), depth) && image == old(image) && pixels == old(pixels) && bits == old(bits)
    }

    /** The slot is taken and its cell drawn, if the message can be sent. */
    method Draw(r: Rune, h: nat, w: byte, left: int, cell: nat, depth: int, buf: bool) returns (ld: int)
      requires Valid() && h < cache.Length && InWindow(h, r, cache.Length - NFLOOK) && cache[h].age < age
      requires NoneHolds(cache[..], r) && cell <= width && depth <= maxdepth
      modifies cache, this`drawn
      ensures Valid() && Kept(old(cache[..]), cache[..], age) && Others(old(cache[..]), cache[..], h)
      ensures cache[h] == Slot(CellAt(h, width), w, left, r, old(cache[h].age)) && NoneBut(cache[..], h)
      ensures ld == (if image && buf then 1 else 0) && (ld == 0 ==> drawn == old(drawn))
      ensures ld == 1 ==> (Shows(h) <==> Inside(h, cell, depth))
      ensures old(Faithful()) ==> (Faithful() <==> !old(Spoils(h, cell, depth, buf)))
      ensures old(Trusty()) && ld == 1 ==> Trusty() && (Roomy() ==> Shows(h))
    {
      hide Sound, InWindow, NoneBut;
      if Faithful() && Roomy() { RoomySafe(h, cell, depth, buf); }
      Install(r, h, w, left);
      if !image || !buf { return 0; }
      ghost var x, inside, was := CellAt(h, width), Inside(h, cell, depth), drawn;
      drawn := seq(|was|, g requires 0 <= g < |was| =>
        if g == h then (if inside then Some(Picture(r, x, cell)) else None)
        else if was[g].Some? && Meets(was[g].value, x, cell) then None
        else was[g]);
      return 1;
    }

    /** Make the cells wide and deep enough, unless that has to wait. */
    method Widen(cell: nat, depth: int, n: nat, io: Answers) returns (ld: int)
      requires Valid()
      modifies this, cache
      ensures Valid() && age == old(age) && (cache == old(cache) || fresh(cache)) && cache.Length == old(cache.Length)
      ensures ld == if !old(Needs(cell, depth)) then 1 else if n > 0 then -1 else if io.alloc && io.sent then 1 else 0
      ensures ld == 1 ==> cell <= width && depth <= maxdepth && cache == old(cache)
      ensures old(Trusty()) && ld != 0 ==> Trusty()
      ensures old(Faithful()) ==> Faithful()
      ensures !old(Needs(cell, depth)) || n > 0 ==> cache == old(cache) && cache[..] == old(cache[..]) && drawn == old(drawn)
      ensures old(Needs(cell, depth)) && n == 0 ==> Unused(cache[..])
      ensures Resized(cell, depth, n, io)
    {
      if width < cell || width == 0 || maxdepth < depth {
        if n > 0 { return -1; }
        if width < cell { width := cell; }
        if maxdepth < depth { maxdepth := depth; }
        ld := FontResize(width, cache.Length, maxdepth, io.alloc, io.sent, io.more);
        UnusedFaithful();
        return;
      }
      return 1;
    }

    method Install(r: Rune, h: nat, w: byte, left: int)
      requires Valid() && h < cache.Length && InWindow(h, r, cache.Length - NFLOOK) && cache[h].age < age
      requires NoneHolds(cache[..], r)
      modifies cache
      ensures Valid() && Kept(old(cache[..]), cache[..], age)
      ensures cache[h] == Slot(CellAt(h, width), w, left, r, old(cache[h].age))
      ensures Others(old(cache[..]), cache[..], h) && NoneBut(cache[..], h)
    {
      ghost var was := cache[..];
      var x := CellAt(h, width);
      cache[h] := Slot(x, w, left, r, cache[h].age);
      assert cache[..] == was[h := Slot(x, w, left, r, was[h].age)];
      SoundSet(was, age, h, Slot(x, w, left, r, was[h].age));
    }

    /** The slots used in the last 500 strings. */
    predicate Recent(a: int)
      reads `age
    {
      a > 0 && age - a < 500
    }

    lemma Bounds()
      requires Valid()
      ensures NFCACHE + NFLOOK <= cache.Length <= MAXFCACHE
      ensures 2 * (cache.Length - NFLOOK) + NFLOOK <= MAXFCACHE <==> cache.Length < MAXFCACHE
      ensures forall h :: 0 <= h < cache.Length ==> cache[h].age <= age
    {
      assert forall h :: 0 <= h < cache.Length ==> cache[..][h].age <= age;
    }

    /** A bigger cache, with nothing in it. */
    method Grow(nc: nat, io: Answers)
      requires Valid() && nc == 2 * (cache.Length - NFLOOK) + NFLOOK <= MAXFCACHE
      modifies this, cache
      ensures Valid() && age == old(age) && (cache == old(cache) || fresh(cache)) && cache.Length >= old(cache.Length)
      ensures Unused(cache[..]) && Faithful() && (old(Trusty()) ==> Trusty())
      ensures cache.Length == if io.alloc && io.sent && io.more then nc else old(cache.Length)
    {
      var ret := FontResize(width, nc, maxdepth, io.alloc, io.sent, io.more);
      UnusedFaithful();
    }

    /** A slot for r, which none holds, with r in it: the oldest of its window,
        unless that is still wanted. */
    method Replace(r: Rune, n: nat, look: Lookup, io: Answers) returns (h: nat, ld: int, ghost tried: bool, ghost wiped: bool)
      requires Valid() && NoneHolds(cache[..], r)
      modifies this, cache
      ensures Valid() && age == old(age) && (cache == old(cache) || fresh(cache)) && cache.Length >= old(cache.Length)
      ensures h < old(cache.Length) && InWindow(h, r, old(cache.Length) - NFLOOK)
      ensures forall i :: 0 <= i < old(cache.Length) && InWindow(i, r, old(cache.Length) - NFLOOK) ==>
                old(cache[h].age) <= old(cache[i].age)
      ensures tried <==> old(cache[h].age) != age && !(old(Recent(cache[h].age)) && old(cache.Length) < MAXFCACHE)
      ensures forall i :: 0 <= i < h && InWindow(i, r, old(cache.Length) - NFLOOK) ==> old(cache[h].age) < old(cache[i].age)
      ensures ld == 1 || ld == 0 || ld == -1
      ensures tried ==> ld == Loads(look, io, old(width), old(maxdepth), old(image), n)
      ensures ld >= 0 || n > 0 || tried ==> cache.Length == old(cache.Length)
      ensures !tried && n == 0 && old(Recent(cache[h].age)) && old(cache.Length) < MAXFCACHE && io.alloc && io.sent && io.more ==>
                cache.Length == 2 * (old(cache.Length) - NFLOOK) + NFLOOK
      ensures !tried ==> ld == -1
      ensures ld == 1 ==> look.Glyph? && cache[h].value == r && cache[h].width == look.width && cache[h].age < age
      ensures ld == 1 ==> NoneBut(cache[..], h) && (Shows(h) <==> Inside(h, look.cell, look.depth))
      ensures n > 0 ==> !wiped && cache == old(cache) && Kept(old(cache[..]), cache[..], age)
      ensures wiped <==> n == 0 && if tried then look.Glyph? && old(Needs(look.cell, look.depth))
                                   else old(Recent(cache[h].age)) && old(cache.Length) < MAXFCACHE
      ensures !wiped ==> Spared(old(cache[..]), cache[..], age, old(cache.Length) < MAXFCACHE)
      ensures wiped ==> Unused(cache[..])
      ensures tried && look.Glyph? && !old(Needs(look.cell, look.depth)) ==>
                && cache == old(cache) && Others(old(cache[..]), cache[..], h) && cache[h].value == r
                    && cache[h].age == old(cache[h].age)
                && image == old(image) && (if image && io.buf then ld == 1 else ld == 0 && drawn == old(drawn))
      ensures old(Faithful()) ==>
                (Faithful() <==>
                 !(tried && look.Glyph? && !old(Needs(look.cell, look.depth)) && old(Spoils(h, look.cell, look.depth, io.buf))))
      ensures old(Trusty()) && ld != 0 ==> Trusty() && (ld == 1 && Roomy() ==> Shows(h))
    {
      hide Sound, Spared, InWindow, Spoils, Shows, Trusty, Faithful, Roomy, Fits, Inside, NoneHolds, NoneBut, Sizes, Resized;
      Bounds();
      h := Oldest(r);
      ld, tried, wiped := -1, false, false;
      ghost var was := cache[..];
      KeptSelf(was, age);
      SparedSelf(was, age);
      var a := cache[h].age;
      if Recent(a) {
        var nc := 2 * (cache.Length - NFLOOK) + NFLOOK;
        if nc <= MAXFCACHE {
          if n == 0 {
            Grow(nc, io);
            wiped := true;
          }
          return;
        }
      }
      if cache[h].age == age { return; }
      tried := true;
      wiped := n == 0 && look.Glyph? && Needs(look.cell, look.depth);
      ld := LoadChar(r, h, n, look, io);
      if !wiped { SparedOthers(was, cache[..], age, h); }
    }

    /** The characters of a string found so far, and their widths. */
    ghost predicate Found(cp: seq<nat>, took: seq<Rune>, wid: nat)
      reads this, cache
    {
      |took| == |cp| && Names(cache[..], age, cp, took) && wid == Widths(cache[..], cp)
    }

    /** `cachechars`: every number returned names a slot of the current string
        that holds the rune it stands for, whatever was loaded, thrown out or
        resized on the way; runes without an image are passed over. */
    method CacheChars(rs: seq<Rune>, max: nat)
        returns (k: nat, cp: seq<nat>, wid: nat, ghost took: seq<Rune>, ghost kept: seq<bool>, ghost wiped: bool,
                 ghost tries: seq<Try>)
      requires Valid()
      modifies this, cache
      ensures Valid() && age == old(age) && (cache == old(cache) || fresh(cache))
      ensures k <= |rs| && |cp| <= max && |kept| == k && took == Filter(rs[..k], kept)
      ensures Found(cp, took, wid)
      ensures cp != [] ==> cache.Length == old(cache.Length)
      ensures !wiped ==> Spared(old(cache[..]), cache[..], age, old(cache.Length) < MAXFCACHE)
      ensures old(Trusty()) && AllKept(kept) ==> Trusty()
      ensures |tries| == k + if k < |rs| && |cp| < max then 1 else 0
      ensures forall i :: 0 <= i < |tries| ==> Told(tries[i], age, rs, i, kept, k)
      ensures tries != [] ==> tries[0].before == old(cache[..])
      ensures wiped <==> exists i :: 0 <= i < |tries| && EmptiesAt(tries, age, rs, i, kept)
      ensures AllHeld(old(cache[..]), rs) ==> k == (if max <= |rs| then max else |rs|) && took == rs[..k]
      ensures max > 0 && rs != [] && !NoneHolds(old(cache[..]), rs[0]) ==> k > 0 && took != [] && took[0] == rs[0]
    {
      hide Sound, Names, Widths, Kept, Spared, Filter, Sizes, Current, Faithful, AllKept, Trusty, Told, AllHeld,
        NoneHolds, Others, EmptiesAt;
      k, cp, wid, took, kept, wiped, tries := 0, [], 0, [], [], false, [];
      ghost var first := cache[..];
      ghost var grows := cache.Length < MAXFCACHE;
      SparedSelf(first, age);
      FoundNone(cache[..], age);
      while k < |rs| && |cp| < max
        invariant Valid() && age == old(age) && (cache == old(cache) || fresh(cache)) && cache.Length == |first|
        invariant k <= |rs| && |cp| <= max && |kept| == k && took == Filter(rs[..k], kept) && Found(cp, took, wid)
        invariant !wiped ==> Spared(first, cache[..], age, grows)
        invariant old(Trusty()) && AllKept(kept) ==> Trusty()
        invariant |tries| == k && forall i :: 0 <= i < k ==> Told(tries[i], age, rs, i, kept, k)
        invariant if k == 0 then cache[..] == first else tries[0].before == first
        invariant wiped <==> exists i :: 0 <= i < k && EmptiesAt(tries, age, rs, i, kept)
        invariant AllHeld(first, rs) ==> AllHeld(cache[..], rs) && |cp| == k && took == rs[..k]
        invariant k > 0 && !NoneHolds(first, rs[0]) ==> took != [] && took[0] == rs[0]
      {
        ghost var was := cache[..];
        var h, ld;
        ghost var w, t;
        h, ld, w, t := One(rs[k], |cp|);
        EmptiesMore(tries, t, age, rs, kept, ld > 0, |cp|);
        tries := tries + [t];
        ToldMore(tries, age, rs, k, kept, ld, |cp|);
        if AllHeld(was, rs) { HeldStill(was, cache[..], rs, k, h, age); }
        StillFound(was, cache[..], age, cp, took);
        if !wiped && !w { SparedMore(first, was, cache[..], age, grows); }
        wiped := wiped || w;
        if ld < 0 { break; }
        FilterMore(rs, k, kept, ld > 0);
        AllKeptMore(kept, ld > 0);
        if ld > 0 {
          FoundMore(cache[..], age, cp, took, h, rs[k]);
          wid := wid + cache[h].width;
          cp, took := cp + [h], took + [rs[k]];
        }
        k, kept := k + 1, kept + [ld > 0];
      }
    }

    /** One rune: found, or loaded and then as if found; -1 to stop at it, 0 to
        pass over it. */
    method One(r: Rune, n: nat) returns (h: nat, ld: int, ghost wiped: bool, ghost t: Try)
      requires Valid()
      modifies this, cache
      ensures Valid() && age == old(age) && (cache == old(cache) || fresh(cache))
      ensures ld >= 0 || n > 0 ==> cache.Length == old(cache.Length)
      ensures ld > 0 ==> h < cache.Length && Current(cache[..], age, h, r)
      ensures n > 0 ==> Kept(old(cache[..]), cache[..], age)
      ensures !wiped ==> Spared(old(cache[..]), cache[..], age, old(cache.Length) < MAXFCACHE)
      ensures old(Trusty()) && ld != 0 ==> Trusty()
      ensures t.before == old(cache[..]) && IsOldest(t, r) && ld == Answer(t, age, r, n) && (wiped <==> Empties(t, age, r, n))
      ensures !NoneHolds(old(cache[..]), r) ==> |cache[..]| == |t.before| && Used(t.before, cache[..], age, h)
    {
      hide Sound, InWindow, Spared, Kept, NoneBut, NoneHolds, Others, Trusty, Faithful, Roomy, Shows, Spoils, Fits, Inside, Sizes;
      Bounds();
      var f := Find(r);
      ghost var was := cache[..];
      SparedSelf(was, age);
      KeptSelf(was, age);
      h, ld, wiped := 0, 1, false;
      var look: Lookup, io: Answers := *, *;
      t := Try(was, 0, width, maxdepth, image, look, io);
      if f >= 0 {
        h := f;
        FoundShows(h);
        HoldsAt(was, h);
      } else {
        ghost var tried;
        h, ld, tried, wiped := Replace(r, n, look, io);
        t := t.(h := h);
        if ld <= 0 { return; }
      }
      ghost var then_ := cache[..];
      Touch(h);
      Touched(was, then_, cache[..], age, h, n);
    }

    lemma FoundShows(h: nat)
      requires h < cache.Length == |drawn| && cache[h].age > 0
      ensures Trusty() && Roomy() ==> Shows(h)
    {
    }

    /** A slot is used for the current string. */
    method Touch(h: nat)
      requires Valid() && h < cache.Length && InWindow(h, cache[h].value, cache.Length - NFLOOK) && cache[h].age <= age
      requires NoneBut(cache[..], h)
      modifies cache
      ensures Valid() && Others(old(cache[..]), cache[..], h) && cache[h] == old(cache[h]).(age := age)
      ensures old(Faithful()) ==> (Faithful() <==> old(Shows(h)))
      ensures old(Trusty()) && (old(Roomy()) ==> old(Shows(h))) ==> Trusty()
    {
      ghost var was := cache[..];
      cache[h] := cache[h].(age := age);
      assert cache[..] == was[h := was[h].(age := age)];
      SoundSet(was, age, h, was[h].(age := age));
    }

    /** `agefont`: a new string begins, and no slot belongs to it yet.  The ages
        are brought down when they run out, and keep their order. */
    method AgeFont()
      requires Valid()
      modifies this`age, cache
      ensures Valid() && Aged(old(cache[..]), cache[..]) && age == (if old(age) + 1 == AGES then AGES / 4 + 1 else old(age) + 1)
      ensures forall h :: 0 <= h < cache.Length ==> cache[h].age < age
      ensures old(age) + 1 < AGES ==> cache[..] == old(cache[..])
      ensures (old(Faithful()) ==> Faithful()) && (old(Trusty()) ==> Trusty())
    {
      hide Sound, Sizes, Lower, InWindow;
      ghost var was, top := cache[..], age;
      age := age + 1;
      SoundAges(was, top);
      AgedSelf(was);
      if age == AGES {
        LowerAges();
        LoweredAges(was, cache[..]);
        age := AGES / 4 + 1;
      }
      AgedSound(was, cache[..], top, age);
    }

    method LowerAges()
      modifies cache
      ensures Lower(old(cache[..]), cache[..])
    {
      ghost var was := cache[..];
      for i := 0 to cache.Length
        invariant forall h :: 0 <= h < i ==> cache[h] == was[h].(age := Lowered(was[h].age))
        invariant forall h :: i <= h < cache.Length ==> cache[h] == was[h]
      {
        if cache[i].age > 0 {
          cache[i] := cache[i].(age := cache[i].age / 4 + 1);
        }
      }
    }
  }

  /** Cells do not overlap as long as the last one ends within 16 bits. */
  lemma CellsApart(g: nat, h: nat, n: nat, width: nat)
    requires g < n && h < n && n * width <= AGES
    ensures CellAt(g, width) + width <= n * width && CellAt(h, width) + width <= n * width
    ensures g != h ==> CellAt(g, width) + width <= CellAt(h, width) || CellAt(h, width) + width <= CellAt(g, width)
  {
    CellEnds(g, n, width);
    CellEnds(h, n, width);
    if g < h { CellEnds(g, h, width); } else if h < g { CellEnds(h, g, width); }
  }

  lemma CellEnds(g: nat, h: nat, width: nat)
    requires g < h
    ensures g * width + width <= h * width
    ensures g * width < AGES ==> CellAt(g, width) == g * width
  {
    assert (g + 1) * width <= h * width by { assert (h - g - 1) * width >= 0; }
  }

  /** No slot in use holds r. */
  ghost predicate NoneHolds(s: seq<Slot>, r: Rune) {
    forall i :: 0 <= i < |s| && s[i].age > 0 ==> s[i].value != r
  }

  /** The slots used lately still hold what they held, if the cache can grow. */
  ghost predicate Spared(s: seq<Slot>, s': seq<Slot>, age: int, grows: bool) {
    && |s'| == |s|
    && (grows ==>
          forall h :: 0 <= h < |s| && s[h].age > 0 && age - s[h].age < 500 ==> s'[h].value == s[h].value && s'[h].age >= s[h].age)
  }

  function Lowered(a: nat): nat {
    if a > 0 then a / 4 + 1 else 0
  }

  /** The same slots, with ages in the same order and in use as before. */
  ghost predicate Aged(s: seq<Slot>, s': seq<Slot>) {
    && |s'| == |s|
    && (forall h :: 0 <= h < |s| ==> s'[h] == s[h].(age := s'[h].age) && (s'[h].age == 0 <==> s[h].age == 0))
    && (forall g, h :: 0 <= g < |s| && 0 <= h < |s| && s[g].age <= s[h].age ==> s'[g].age <= s'[h].age)
  }

  ghost predicate Lower(s: seq<Slot>, s': seq<Slot>) {
    |s'| == |s| && forall h :: 0 <= h < |s| ==> s'[h] == s[h].(age := Lowered(s[h].age))
  }

  lemma LoweredAges(s: seq<Slot>, s': seq<Slot>)
    requires Lower(s, s')
    ensures Aged(s, s')
    ensures (forall h :: 0 <= h < |s| ==> s[h].age < AGES) ==> forall h :: 0 <= h < |s| ==> s'[h].age <= AGES / 4
  {
  }

  lemma SoundAges(s: seq<Slot>, age: int)
    requires Sound(s, age)
    ensures forall h :: 0 <= h < |s| ==> s[h].age <= age
  {
    hide InWindow;
  }

  lemma AgedSelf(s: seq<Slot>)
    ensures Aged(s, s)
  {
  }

  lemma AgedSound(s: seq<Slot>, s': seq<Slot>, top: int, age: int)
    requires Sound(s, top) && Aged(s, s') && forall h :: 0 <= h < |s| ==> s'[h].age <= age
    ensures Sound(s', age)
  {
    hide InWindow;
  }

  /** The numbers name slots of the current string that hold the runes. */
  ghost predicate Names(s: seq<Slot>, age: int, cp: seq<nat>, took: seq<Rune>)
    requires |took| == |cp|
  {
    forall j :: 0 <= j < |cp| ==> Current(s, age, cp[j], took[j])
  }

  function Widths(s: seq<Slot>, cp: seq<nat>): nat {
    if cp == [] then 0
    else Widths(s, cp[..|cp| - 1]) + if cp[|cp| - 1] < |s| then s[cp[|cp| - 1]].width else 0
  }

  /** The runes of those that are kept. */
  function Filter(rs: seq<Rune>, kept: seq<bool>): seq<Rune>
    requires |rs| == |kept|
  {
    if rs == [] then []
    else Filter(rs[..|rs| - 1], kept[..|rs| - 1]) + if kept[|rs| - 1] then [rs[|rs| - 1]] else []
  }

  /** No rune was passed over. */
  predicate AllKept(kept: seq<bool>) {
    forall j :: 0 <= j < |kept| ==> kept[j]
  }

  lemma AllKeptMore(kept: seq<bool>, more: bool)
    ensures AllKept(kept + [more]) <==> AllKept(kept) && more
    ensures AllKept([])
  {
    var k := kept + [more];
    assert k[|kept|] == more;
    assert forall j :: 0 <= j < |kept| ==> k[j] == kept[j];
  }

  lemma FilterMore(rs: seq<Rune>, k: nat, kept: seq<bool>, more: bool)
    requires k < |rs| && |kept| == k
    ensures Filter(rs[..k + 1], kept + [more]) == Filter(rs[..k], kept) + if more then [rs[k]] else []
  {
    assert rs[..k + 1][..k] == rs[..k] && (kept + [more])[..k] == kept;
  }

  lemma {:induction false} StillFound(s: seq<Slot>, s': seq<Slot>, age: int, cp: seq<nat>, took: seq<Rune>)
    requires |took| == |cp| && Names(s, age, cp, took) && (cp != [] ==> Kept(s, s', age))
    ensures Names(s', age, cp, took) && Widths(s', cp) == Widths(s, cp)
  {
    if cp != [] {
      var n := |cp| - 1;
      assert Current(s, age, cp[n], took[n]);
      StillFound(s, s', age, cp[..n], took[..n]);
    }
  }

  lemma FoundNone(s: seq<Slot>, age: int)
    ensures Names(s, age, [], []) && Widths(s, []) == 0 && Filter([], []) == []
  {
  }

  lemma FoundMore(s: seq<Slot>, age: int, cp: seq<nat>, took: seq<Rune>, h: nat, r: Rune)
    requires |took| == |cp| && Names(s, age, cp, took) && Current(s, age, h, r)
    ensures Names(s, age, cp + [h], took + [r]) && Widths(s, cp + [h]) == Widths(s, cp) + s[h].width
  {
    assert (cp + [h])[..|cp|] == cp;
  }

  /** Using a slot does not touch the others of the string, or those spared. */
  lemma Touched(s: seq<Slot>, s': seq<Slot>, s'': seq<Slot>, age: nat, h: nat, n: nat)
    requires Others(s', s'', h) && h < |s'| && s''[h] == s'[h].(age := age) && s'[h].age <= age
    ensures n > 0 && Kept(s, s', age) ==> Kept(s, s'', age)
    ensures forall grows :: Spared(s, s', age, grows) ==> Spared(s, s'', age, grows)
  {
  }

  lemma SparedMore(s: seq<Slot>, s': seq<Slot>, s'': seq<Slot>, age: int, grows: bool)
    requires Spared(s, s', age, grows) && Spared(s', s'', age, grows)
    ensures Spared(s, s'', age, grows)
  {
  }

  /** No other slot in use holds what slot h holds. */
  ghost predicate NoneBut(s: seq<Slot>, h: nat)
    requires h < |s|
  {
    forall i :: 0 <= i < |s| && i != h && s[i].age > 0 ==> s[i].value != s[h].value
  }

  lemma SparedOthers(s: seq<Slot>, s': seq<Slot>, age: int, h: nat)
    requires h < |s| && Others(s, s', h) && (s[h].age == 0 || age - s[h].age >= 500 || |s| >= MAXFCACHE)
    ensures Spared(s, s', age, |s| < MAXFCACHE)
  {
  }

  lemma KeptSelf(s: seq<Slot>, age: int)
    ensures Kept(s, s, age)
  {
  }

  lemma SparedSelf(s: seq<Slot>, age: int)
    ensures Spared(s, s, age, true) && Spared(s, s, age, false)
  {
  }

  lemma NoneStill(s: seq<Slot>, s': seq<Slot>, r: Rune)
    requires NoneHolds(s, r) && (s' == s || Unused(s'))
    ensures NoneHolds(s', r)
  {
  }

  ghost predicate Unused(s: seq<Slot>) {
    forall h :: 0 <= h < |s| ==> s[h].age == 0
  }

  /** At most slot h has changed. */
  ghost predicate Others(s: seq<Slot>, s': seq<Slot>, h: nat) {
    |s'| == |s| && forall i :: 0 <= i < |s| && i != h ==> s'[i] == s[i]
  }

  lemma SoundSet(s: seq<Slot>, age: int, h: nat, x: Slot)
    requires Sound(s, age) && h < |s| && x.age <= age && InWindow(h, x.value, |s| - NFLOOK)
    requires forall i :: 0 <= i < |s| && i != h && s[i].age > 0 ==> s[i].value != x.value
    ensures Sound(s[h := x], age)
  {
    hide InWindow;
  }

  // ------------------------------------------------------------------
  // Cells that lie

  /** Whenever the oldest slot in the window of r is in use and no longer wanted,
      and the message that loads r cannot be sent, r is found afterwards, in a
      cell that shows another rune. */
  method Mistaken(f: Font, r: Rune, look: Lookup, io: Answers) returns (h: int)
    requires f.Valid() && f.Faithful() && NoneHolds(f.cache[..], r)
    requires look.Glyph? && !f.Needs(look.cell, look.depth) && !(f.image && io.buf)
    requires forall i :: 0 <= i < f.cache.Length && InWindow(i, r, f.cache.Length - NFLOOK) ==>
               f.cache[i].age > 0 && f.age - f.cache[i].age >= 500
    modifies f, f.cache
    ensures f.Valid() && 0 <= h < f.cache.Length && f.cache[h].value == r && f.cache[h].age > 0
    ensures f.drawn[h].Some? && f.drawn[h].value.rune != r
  {
    var ld;
    ghost var tried, wiped;
    var h0;
    h0, ld, tried, wiped := f.Replace(r, 0, look, io);
    h := f.Find(r);
  }

  /** Slots 0 to k-1 hold the runes 64, 128 and so on, which all start there. */
  ghost predicate Filled(f: Font, k: nat)
    reads f, f.cache
  {
    && f.Valid() && f.Faithful() && f.cache.Length == NFCACHE + NFLOOK && k <= NFLOOK
    && (k > 0 ==> f.width == 8 && f.maxdepth == 1)
    && (forall i :: 0 <= i < k ==> f.cache[i].age == 1 && f.cache[i].value == 64 * (i + 1))
    && (forall i :: k <= i < f.cache.Length ==> f.cache[i].age == 0)
    && (if k == 0 then f.width == f.maxdepth == 0 else f.image && f.Roomy())
  }

  method FillOne(f: Font, k: nat)
    requires Filled(f, k) && k < NFLOOK && f.age == 1
    modifies f, f.cache
    ensures Filled(f, k + 1) && f.age == 1 && (f.cache == old(f.cache) || fresh(f.cache))
  {
    var ld := f.LoadChar(64 * (k + 1), k, k, Glyph(8, 0, 8, 1), Answers(true, true, true, true));
    f.Touch(k);
  }

  /** A run that ends so: five runes of one window, 500 other strings, and a
      sixth rune that cannot be loaded. */
  method FailedLoad() returns (f: Font, h: int)
    ensures f.Valid() && 0 <= h < f.cache.Length && f.cache[h].value == 384 && f.cache[h].age > 0
    ensures f.drawn[h].Some? && f.drawn[h].value.rune != 384
  {
    f := new Font();
    for k := 0 to NFLOOK
      invariant fresh(f) && fresh(f.cache) && Filled(f, k) && f.age == 1
    {
      FillOne(f, k);
    }
    for i := 0 to 500
      invariant fresh(f) && fresh(f.cache) && Filled(f, NFLOOK) && f.age == 1 + i
    {
      f.AgeFont();
    }
    h := Mistaken(f, 384, Glyph(8, 0, 8, 1), Answers(true, true, true, false));
  }

  /** A run where the display has no memory for wider cells: the width asked for
      stays, and a rune loaded after that is found in a cell outside the image. */
  method FailedResize() returns (f: Font, h: int)
    ensures f.Valid() && 0 <= h < f.cache.Length && f.cache[h].value == 42 && f.cache[h].age > 0
    ensures f.cache[h].x > f.pixels && !f.Shows(h)
  {
    f := NarrowFont();
    var ld := f.LoadChar(42, 10, 0, Glyph(8, 0, 8, 1), Answers(true, true, true, true));
    UseSlot(f, 10);
    h := f.Find(42);
  }

  /** Cells of 100 columns in an image made for cells of eight. */
  method NarrowFont() returns (f: Font)
    ensures f.Valid() && fresh(f) && fresh(f.cache) && f.cache.Length == NFCACHE + NFLOOK && Unused(f.cache[..]) && f.age == 1
    ensures f.image && f.width == 100 && f.maxdepth == 1 && f.pixels == 552 && f.bits == 1
  {
    f := new Font();
    var ld := f.LoadChar(64, 0, 0, Glyph(8, 0, 8, 1), Answers(true, true, true, true));
    ld := f.LoadChar(128, 0, 0, Glyph(100, 0, 100, 1), Answers(false, true, true, true));
  }

  method UseSlot(f: Font, h: nat)
    requires f.Valid() && h < f.cache.Length && InWindow(h, f.cache[h].value, f.cache.Length - NFLOOK)
    requires NoneBut(f.cache[..], h) && f.cache[h].age <= f.age && !f.Shows(h)
    modifies f.cache
    ensures f.Valid() && f.cache[h] == old(f.cache[h]).(age := f.age) && !f.Shows(h)
  {
    f.Touch(h);
  }

  /** What the display answers: a new image, its set-up, memory, and room for
      the message that loads a character. */
  /** A try to have a rune: the cache before it, the oldest slot of the window
      then, the measures of the image, and what the outside world had to say. */
  datatype Try = Try(before: seq<Slot>, h: nat, width: nat, maxdepth: int, image: bool, look: Lookup, io: Answers)

  /** What loading a character comes to, if it is tried: 1 if it is there, 0 if
      it cannot be, -1 if that has to wait. */
  function Loads(look: Lookup, io: Answers, width: nat, maxdepth: int, image: bool, n: nat): int {
    match look
    case Missing => 0
    case Absent => -1
    case Glyph(_, _, cell, depth) =>
      var fits := 0 < width && cell <= width && depth <= maxdepth;
      if !fits && n > 0 then -1
      else if !fits && !(io.alloc && io.sent) then 0
      else if (image || !fits) && io.buf then 1
      else 0
  }

  ghost predicate IsOldest(t: Try, r: Rune) {
    NoneHolds(t.before, r) && |t.before| > NFLOOK ==>
      && t.h < |t.before| && InWindow(t.h, r, |t.before| - NFLOOK)
      && forall i :: 0 <= i < |t.before| && InWindow(i, r, |t.before| - NFLOOK) ==>
           t.before[t.h].age <= t.before[i].age && (i < t.h ==> t.before[t.h].age < t.before[i].age)
  }

  /** What comes of a try: a rune that some slot holds is there.  Otherwise the
      caller is to stop if the oldest slot belongs to the string of now, or was
      used in the last 500 strings and the cache can grow; and if not, it depends
      on the loading. */
  ghost function Answer(t: Try, age: int, r: Rune, n: nat): int {
    if !NoneHolds(t.before, r) then 1
    else if t.h >= |t.before| then -1
    else
      var a := t.before[t.h].age;
      if a == age || (0 < a && age - a < 500 && |t.before| < MAXFCACHE) then -1
      else Loads(t.look, t.io, t.width, t.maxdepth, t.image, n)
  }

  /** The try empties the cache: to make it bigger, or the cells wider. */
  ghost predicate Empties(t: Try, age: int, r: Rune, n: nat) {
    && n == 0 && NoneHolds(t.before, r) && t.h < |t.before|
    && var a := t.before[t.h].age;
    if 0 < a && age - a < 500 && |t.before| < MAXFCACHE then true
    else a != age && t.look.Glyph? && !(0 < t.width && t.look.cell <= t.width && t.look.depth <= t.maxdepth)
  }

  ghost predicate EmptiesAt(tries: seq<Try>, age: int, rs: seq<Rune>, i: nat, kept: seq<bool>)
    requires i < |tries|
  {
    i < |rs| && i <= |kept| && Empties(tries[i], age, rs[i], |Filter(rs[..i], kept[..i])|)
  }

  lemma EmptiesMore(tries: seq<Try>, t: Try, age: int, rs: seq<Rune>, kept: seq<bool>, more: bool, n: nat)
    requires |tries| == |kept| < |rs| && n == |Filter(rs[..|tries|], kept)|
    ensures var k, all := |tries|, exists i :: 0 <= i < |tries| && EmptiesAt(tries, age, rs, i, kept);
            && ((exists i :: 0 <= i <= k && EmptiesAt(tries + [t], age, rs, i, kept)) <==> all || Empties(t, age, rs[k], n))
            && ((exists i :: 0 <= i <= k && EmptiesAt(tries + [t], age, rs, i, kept + [more])) <==>
                all || Empties(t, age, rs[k], n))
  {
    hide Empties, Filter;
    var k, tt := |tries|, tries + [t];
    assert kept[..k] == kept && (kept + [more])[..k] == kept;
    forall i | 0 <= i < k
      ensures EmptiesAt(tt, age, rs, i, kept) <==> EmptiesAt(tries, age, rs, i, kept)
      ensures EmptiesAt(tt, age, rs, i, kept + [more]) <==> EmptiesAt(tries, age, rs, i, kept)
    {
      assert (kept + [more])[..i] == kept[..i];
    }
    assert EmptiesAt(tt, age, rs, k, kept) <==> Empties(t, age, rs[k], n);
    assert EmptiesAt(tt, age, rs, k, kept + [more]) <==> Empties(t, age, rs[k], n);
  }

  /** Runes are taken, passed over, and waited for as the tries say. */
  ghost predicate Told(t: Try, age: int, rs: seq<Rune>, i: nat, kept: seq<bool>, k: nat) {
    && i < |rs| && i <= k == |kept| <= |rs| && IsOldest(t, rs[i])
    && Answer(t, age, rs[i], |Filter(rs[..i], kept[..i])|) == if i == k then -1 else if kept[i] then 1 else 0
  }

  lemma ToldMore(tries: seq<Try>, age: int, rs: seq<Rune>, k: nat, kept: seq<bool>, ld: int, n: nat)
    requires |tries| == k + 1 && k == |kept| < |rs| && n == |Filter(rs[..k], kept)| && (ld == 1 || ld == 0 || ld == -1)
    requires forall i :: 0 <= i < k ==> Told(tries[i], age, rs, i, kept, k)
    requires IsOldest(tries[k], rs[k]) && ld == Answer(tries[k], age, rs[k], n)
    ensures ld < 0 ==> Told(tries[k], age, rs, k, kept, k)
    ensures ld >= 0 ==> forall i :: 0 <= i <= k ==> Told(tries[i], age, rs, i, kept + [ld > 0], k + 1)
  {
    assert kept[..k] == kept;
    forall i | 0 <= i <= k
      ensures (kept + [ld > 0])[..i] == kept[..i]
    {
    }
    hide IsOldest, Answer, Filter;
  }

  /** A slot has been used, and nothing else has changed. */
  predicate Used(s: seq<Slot>, s': seq<Slot>, age: int, h: nat) {
    h < |s| && age > 0 && s' == s[h := s[h].(age := age)]
  }

  /** All runes are in the cache. */
  ghost predicate AllHeld(s: seq<Slot>, rs: seq<Rune>) {
    forall i :: 0 <= i < |rs| ==> !NoneHolds(s, rs[i])
  }

  lemma HoldsAt(s: seq<Slot>, h: nat)
    requires h < |s| && s[h].age > 0
    ensures !NoneHolds(s, s[h].value)
  {
  }

  lemma HeldStill(s: seq<Slot>, s': seq<Slot>, rs: seq<Rune>, k: nat, h: nat, age: int)
    requires AllHeld(s, rs) && k < |rs| && (!NoneHolds(s, rs[k]) ==> Used(s, s', age, h))
    ensures AllHeld(s', rs) && !NoneHolds(s, rs[k])
  {
    forall i | 0 <= i < |rs|
      ensures !NoneHolds(s', rs[i])
    {
      var g :| 0 <= g < |s| && s[g].age > 0 && s[g].value == rs[i];
      assert s'[g].age > 0 && s'[g].value == rs[i];
    }
  }

  datatype Answers = Answers(alloc: bool, sent: bool, more: bool, buf: bool)
}
